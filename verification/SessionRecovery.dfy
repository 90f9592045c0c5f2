/** Duplicate acknowledgements, round-trip samples and rate samples over whole runs of a session. */
module SessionRecovery {
  import opened Bytes
  import opened AckWire
  import opened AckTracking
  import opened Ordering
  import opened RttEstimation
  import opened BandwidthEstimation
  import opened Congestion
  import opened SendBuffering
  import opened ArqSender
  import opened Reordering
  import opened Session
  import opened SessionProof
  import opened SessionRuns
  import opened SessionTheorems

  // ----- duplicate acknowledgements -----

  /** The last of the cumulative numbers, or zero before the first. */
  function LastOf(cums: seq<nat>): nat {
    if cums == [] then 0 else cums[|cums| - 1]
  }

  /** How often the last cumulative number repeats the one before it, if it is not zero. */
  function Repetitions(cums: seq<nat>): nat {
    if cums == [] || LastOf(cums) == 0 || LastOf(cums) != LastOf(cums[..|cums| - 1]) then 0
    else Repetitions(cums[..|cums| - 1]) + 1
  }

  /** The last n + 1 numbers are equal and positive, and the number before them, if any, differs. */
  lemma {:induction false} RepetitionsAreTheStreak(cums: seq<nat>)
    requires cums != [] && LastOf(cums) > 0
    ensures var n, last := Repetitions(cums), LastOf(cums);
            && n < |cums|
            && (forall i :: |cums| - n - 1 <= i < |cums| ==> cums[i] == last)
            && (n + 1 < |cums| ==> cums[|cums| - n - 2] != last)
  {
    var init := cums[..|cums| - 1];
    if LastOf(init) == LastOf(cums) {
      RepetitionsAreTheStreak(init);
    }
  }

  /** The sender's two fields say what the acknowledgements handled so far say. */
  ghost predicate CountsRepetitions(s: Sender, cums: seq<nat>) {
    s.lastAckCumAck == LastOf(cums) && s.dupAckCount == Repetitions(cums) % 3
  }

  lemma DuplicateCounted(s: Sender, a: Ack, cums: seq<nat>)
    requires CountsRepetitions(s, cums)
    ensures CountsRepetitions(DupCounted(s, a), cums + [a.cumAck])
    ensures FiresFastRetransmit(s, a) <==> Repetitions(cums + [a.cumAck]) > 0 && Repetitions(cums + [a.cumAck]) % 3 == 0
  {
    assert (cums + [a.cumAck])[..|cums|] == cums;
  }

  /** The cumulative numbers of the acknowledgements handled to their end in a run, oldest first. */
  ghost function Handled(w: World, steps: seq<Step>): seq<nat>
    requires IsRun(w, steps)
    decreases |steps|
  {
    if steps == [] then [] else HandledBy(w, steps[0]) + Handled(Next(w, steps[0]), steps[1..])
  }

  ghost function HandledBy(w: World, step: Step): seq<nat> {
    if step.RecoverAck? && w.handling.Recovering? then [w.handling.ack.cumAck] else []
  }

  lemma StepCountsRepetitions(w: World, step: Step, cums: seq<nat>)
    requires Enabled(w, step) && Sane(w) && CountsRepetitions(w.snd, cums)
    ensures CountsRepetitions(Next(w, step).snd, cums + HandledBy(w, step))
  {
    hide Credited, AckedBy, ResentAll, RecoveryBatch, Sweep, TickBatch, CreditOf, SampleOf, TickResent, Repetitions;
    hide Busy, Reports, Decoded, AckTracking.Record, Inserted, FiresFastRetransmit, DupCounted, Datagrams;
    if step.RecoverAck? {
      DuplicateCounted(w.snd, w.handling.ack, cums);
    } else {
      assert cums + [] == cums;
    }
  }

  lemma {:induction false} RunCountsRepetitions(w: World, steps: seq<Step>, cums: seq<nat>)
    requires IsRun(w, steps) && CountsRepetitions(w.snd, cums)
    ensures CountsRepetitions(After(w, steps).snd, cums + Handled(w, steps))
    decreases |steps|
  {
    hide Enabled, Sane, Next, CountsRepetitions, HandledBy;
    if steps == [] {
      assert cums + [] == cums;
    } else {
      StepCountsRepetitions(w, steps[0], cums);
      RunCountsRepetitions(Next(w, steps[0]), steps[1..], cums + HandledBy(w, steps[0]));
      assert cums + Handled(w, steps) ==
             cums + HandledBy(w, steps[0]) + Handled(Next(w, steps[0]), steps[1..]);
    }
  }

  /** Over any run, read off the cumulative numbers of the acknowledgements it handled alone: dupAckCount is how often
      the last of them was repeated, modulo three. */
  lemma DuplicatesAreCounted(start: int, steps: seq<Step>)
    requires IsRun(Initial(start), steps)
    ensures var s, cums := After(Initial(start), steps).snd, Handled(Initial(start), steps);
            s.lastAckCumAck == LastOf(cums) && s.dupAckCount == Repetitions(cums) % 3
  {
    RunCountsRepetitions(Initial(start), steps, []);
    assert [] + Handled(Initial(start), steps) == Handled(Initial(start), steps);
  }

  /** In any run an acknowledgement that is the third, sixth, ... repetition of its cumulative number puts the lowest
      un-acknowledged packet back on the wire; any other re-sends only what the bitmap shows as lost. */
  lemma EveryThirdRepetitionResends(start: int, steps: seq<Step>, now: int)
    requires IsRun(Initial(start), steps) && After(Initial(start), steps).handling.Recovering?
    ensures var w := After(Initial(start), steps);
            var a := w.handling.ack;
            var n := Repetitions(Handled(Initial(start), steps) + [a.cumAck]);
            var m := w.snd.packets;
            && a.Valid()
            && (n > 0 && n % 3 == 0 && Unacked(m) != {} ==>
                  exists k :: IsLeast(k, Unacked(m)) && m[k].packet in RecoverStep(w, a, now).net.data)
            && (!(n > 0 && n % 3 == 0) ==> RecoveryBatch(w.snd, a, now) == SackBatch(m, a, now, w.snd.rtt.rto))
  {
    hide Inv;
    ReachableInv(start, steps);
    DuplicatesAreCounted(start, steps);
    hide IsRun, After, Handled, Repetitions, SackBatch;
    var w := After(Initial(start), steps);
    DuplicateCounted(w.snd, w.handling.ack, Handled(Initial(start), steps));
    if FiresFastRetransmit(w.snd, w.handling.ack) && Unacked(w.snd.packets) != {} {
      FiringResends(w, w.handling.ack, now);
    }
  }

  lemma FiringResends(w: World, a: Ack, now: int)
    requires a.Valid() && FiresFastRetransmit(w.snd, a) && Unacked(w.snd.packets) != {}
    ensures var k := Least(Unacked(w.snd.packets));
            IsLeast(k, Unacked(w.snd.packets)) && w.snd.packets[k].packet in RecoverStep(w, a, now).net.data
  {
    hide SackBatch, ResentAll, DupCounted;
    var k, batch := Least(Unacked(w.snd.packets)), RecoveryBatch(w.snd, a, now);
    assert batch[|batch| - 1] == k;
    assert w.snd.packets[k].packet in Datagrams(w.snd.packets, batch);
  }

  lemma HandledCounts(s: Sender, a: Ack, now: int)
    requires a.Valid() && Consistent(s.window.bwe)
    ensures var s' := AckHandled(s, a, now);
            && s'.lastAckCumAck == DupCounted(s, a).lastAckCumAck && s'.dupAckCount == DupCounted(s, a).dupAckCount
            && Consistent(s'.window.bwe)
    ensures BufferStage(s, a, now).window == s.window
    ensures var credited := CreditStage(BufferStage(s, a, now), CreditOf(s, a, now), now);
            && credited.packets == AckedBy(s.packets, a)
            && (FiresFastRetransmit(credited, a) <==> FiresFastRetransmit(s, a))
  {
    CreditConsistent(s.window, CreditOf(s, a, now), now);
    hide Credited, AckedBy, ResentAll, RecoveryBatch, CreditOf, SampleOf, Consistent;
  }

  /** From a counter at zero the third HandleAck in a row that repeats the last cumulative number ends with sending the
      lowest packet it leaves un-acknowledged. */
  lemma ThreeInARowResendLowest(s: Sender, a1: Ack, t1: int, a2: Ack, t2: int, a3: Ack, t3: int)
    requires a1.Valid() && a2.Valid() && a3.Valid() && Consistent(s.window.bwe)
    requires s.dupAckCount == 0 && s.lastAckCumAck > 0
    requires a1.cumAck == a2.cumAck == a3.cumAck == s.lastAckCumAck
    ensures Consistent(AckHandled(s, a1, t1).window.bwe)
    ensures Consistent(AckHandled(AckHandled(s, a1, t1), a2, t2).window.bwe)
    ensures var s2 := AckHandled(AckHandled(s, a1, t1), a2, t2);
            var m, resent := AckedBy(s2.packets, a3), AckResends(s2, a3, t3);
            Unacked(m) != {} ==>
              resent != [] && exists k :: IsLeast(k, Unacked(m)) && resent[|resent| - 1] == m[k].packet
  {
    hide AckHandled, Consistent, CreditStage, BufferStage, CreditOf, SackBatch, AckedBy;
    HandledCounts(s, a1, t1);
    var s1 := AckHandled(s, a1, t1);
    HandledCounts(s1, a2, t2);
    var s2 := AckHandled(s1, a2, t2);
    HandledCounts(s2, a3, t3);
    var credited := CreditStage(BufferStage(s2, a3, t3), CreditOf(s2, a3, t3), t3);
    assert FiresFastRetransmit(credited, a3);
    var m := credited.packets;
    if Unacked(m) != {} {
      RecoveryOnlyResends(credited, a3, t3);
      var batch := RecoveryBatch(credited, a3, t3);
      assert batch[|batch| - 1] == Least(Unacked(m));
    }
  }

  // ----- what an acknowledgement measures -----

  /** The step puts the packet on the wire again. */
  ghost predicate Resends(w: World, step: Step, k: nat) {
    match step
    case Tick(now) => k in TickResent(w.snd, now)
    case RecoverAck(now) =>
      w.handling.Recovering? && w.handling.ack.Valid() && k in RecoveryBatch(w.snd, w.handling.ack, now)
    case _ => false
  }

  ghost predicate NeverResent(w: World, steps: seq<Step>, k: nat)
    requires IsRun(w, steps)
    decreases |steps|
  {
    steps == [] || (!Resends(w, steps[0], k) && NeverResent(Next(w, steps[0]), steps[1..], k))
  }

  /** The time of the step that put the packet on the wire last, if one did. */
  ghost function LastResent(w: World, steps: seq<Step>, k: nat, last: int): int
    requires IsRun(w, steps)
    decreases |steps|
  {
    if steps == [] then last
    else LastResent(Next(w, steps[0]), steps[1..], k, if Resends(w, steps[0], k) then steps[0].now else last)
  }

  /** What the buffer knows of a packet: when it was first and last sent, what had been delivered when it was numbered,
      and whether it was sent only once. */
  datatype Sending = Sending(at: int, last: int, snap: Snapshot, once: bool)

  ghost predicate Remembers(m: Packets, k: nat, s: Sending) {
    k in m ==>
      && m[k].sentAt == s.at && m[k].lastSentAt == s.last && m[k].delivery == s.snap
      && (m[k].retransmits == 0 <==> s.once)
  }

  function SentAgain(s: Sending, again: bool, now: int): Sending {
    if again then s.(last := now, once := false) else s
  }

  lemma {:induction false} ResentAllCounts(m: Packets, ks: seq<nat>, now: int, k: nat)
    requires k in m
    ensures k in ResentAll(m, ks, now)
    ensures ResentAll(m, ks, now)[k].retransmits == 0 <==> m[k].retransmits == 0 && k !in ks
    ensures ResentAll(m, ks, now)[k].lastSentAt == if k in ks then now else m[k].lastSentAt
    decreases |ks|
  {
    if ks != [] {
      ResentAllCounts(Resent(m, ks[0], now), ks[1..], now, k);
      assert k in ks <==> k == ks[0] || k in ks[1..];
    }
  }

  lemma ResendRemembers(m: Packets, ks: seq<nat>, now: int, k: nat, s: Sending)
    requires Remembers(m, k, s)
    ensures Remembers(ResentAll(m, ks, now), k, SentAgain(s, k in ks, now))
  {
    ResentAllSame(m, ks, now);
    if k in m {
      ResentAllCounts(m, ks, now, k);
    }
  }

  lemma TickRemembers(snd: Sender, now: int, k: nat, s: Sending)
    requires Remembers(snd.packets, k, s)
    ensures Remembers(Ticked(snd, now).packets, k, SentAgain(s, k in TickResent(snd, now), now))
  {
    SweepIsResend(snd.packets, TickBatch(snd, now), now);
    ResendRemembers(snd.packets, TickResent(snd, now), now, k, s);
  }

  lemma StepRemembers(w: World, step: Step, k: nat, s: Sending)
    requires Enabled(w, step) && Sane(w) && Remembers(w.snd.packets, k, s)
    requires step.Store? ==> w.calls[step.call].packet.pktNum != k
    ensures var again := Resends(w, step, k);
            Remembers(Next(w, step).snd.packets, k, SentAgain(s, again, if again then step.now else 0))
  {
    hide Credited, ResentAll, RecoveryBatch, Ticked, TickResent, CreditOf, SampleOf, Busy, Reports, Decoded;
    hide AckTracking.Record, Inserted, DupCounted, Datagrams;
    if step.Tick? {
      TickRemembers(w.snd, step.now, k, s);
    } else if step.RecoverAck? {
      ResendRemembers(w.snd.packets, RecoveryBatch(w.snd, w.handling.ack, step.now), step.now, k, s);
    }
  }

  /** No call is about to store this number. */
  lemma NotStoredAgain(w: World, step: Step, k: nat)
    requires Inv(w) && Enabled(w, step) && IsStored(k, w.snd.packets, w.hist.highCum)
    ensures step.Store? ==> w.calls[step.call].packet.pktNum != k
  {
    hide NetOk, LogOk, AckedOk, AcknowledgedOk, CountsOk, StreamsOk, CallsOk, HolesOk, ReceiveOk, InsertingOk;
  }

  lemma StaysStored(w: World, step: Step, k: nat)
    requires Enabled(w, step) && Sane(w) && IsStored(k, w.snd.packets, w.hist.highCum)
    ensures IsStored(k, Next(w, step).snd.packets, Next(w, step).hist.highCum)
  {
    hide Credited, ResentAll, RecoveryBatch, TickBatch, Sweep, CreditOf, SampleOf, Busy, Reports, Decoded;
    hide AckTracking.Record, Inserted, DupCounted, Datagrams;
    if step.Tick? {
      TickOnlyResends(w.snd, step.now);
    } else if step.RecoverAck? {
      RecoveryOnlyResends(w.snd, w.handling.ack, step.now);
    }
  }

  lemma {:induction false} RunRemembers(w: World, steps: seq<Step>, k: nat, s: Sending)
    requires Inv(w) && IsRun(w, steps) && IsStored(k, w.snd.packets, w.hist.highCum)
    requires Remembers(w.snd.packets, k, s)
    ensures Remembers(After(w, steps).snd.packets, k,
                      s.(last := LastResent(w, steps, k, s.last), once := s.once && NeverResent(w, steps, k)))
    decreases |steps|
  {
    hide Inv, Enabled, Sane, Next, Remembers, IsStored;
    if steps != [] {
      NotStoredAgain(w, steps[0], k);
      StepRemembers(w, steps[0], k, s);
      StaysStored(w, steps[0], k);
      StepInv(w, steps[0]);
      var again := Resends(w, steps[0], k);
      RunRemembers(Next(w, steps[0]), steps[1..], k, SentAgain(s, again, if again then steps[0].now else 0));
    }
  }

  /** A packet Send stores at time t is remembered over any run as first sent at t, with the delivery state it was
      numbered under, and as last sent when the last step put it on the wire again. */
  lemma SendingIsRemembered(start: int, past: seq<Step>, c: nat, t: int, steps: seq<Step>)
    requires IsRun(Initial(start), past) && InPhase(After(Initial(start), past).calls, c, Numbered)
    requires IsRun(StoreStep(After(Initial(start), past), c, t), steps)
    ensures var w := After(Initial(start), past);
            var w1, k := StoreStep(w, c, t), w.calls[c].packet.pktNum;
            Remembers(After(w1, steps).snd.packets, k,
                      Sending(t, LastResent(w1, steps, k, t), w.calls[c].snap, NeverResent(w1, steps, k)))
  {
    hide Inv;
    ReachableInv(start, past);
    var w := After(Initial(start), past);
    StoreInv(w, c, t);
    hide IsRun, After, NeverResent, LastResent;
    RunRemembers(StoreStep(w, c, t), steps, w.calls[c].packet.pktNum, Sending(t, t, w.calls[c].snap, true));
  }

  /** Karn's rule over any run: let a Send store packet k at time t. If an acknowledgement whose cumulative number is k
      finds it in the buffer at time now, the RTT estimator is updated with now - t, and the rate is measured against
      what had been delivered when k was numbered, if and only if k was never re-sent in between. */
  lemma KarnsRule(start: int, past: seq<Step>, c: nat, t: int, steps: seq<Step>, a: Ack, now: int)
    requires IsRun(Initial(start), past) && InPhase(After(Initial(start), past).calls, c, Numbered)
    requires var w1 := StoreStep(After(Initial(start), past), c, t);
             && IsRun(w1, steps) && a.Valid()
             && a.cumAck == After(Initial(start), past).calls[c].packet.pktNum
             && a.cumAck in After(w1, steps).snd.packets
    ensures var w := After(Initial(start), past);
            var w1 := StoreStep(w, c, t);
            var w2 := After(w1, steps);
            var taken := TakeAckStep(w2, a, now);
            var rtt, sample := if now < t then 0 else now - t, taken.handling.credit.sample;
            if NeverResent(w1, steps, a.cumAck)
            then taken.snd.rtt == Updated(w2.snd.rtt, rtt) && sample == Some((w.calls[c].snap, rtt))
            else taken.snd.rtt == w2.snd.rtt && sample == None
  {
    SendingIsRemembered(start, past, c, t, steps);
    hide Inv, IsRun, After, NeverResent, LastResent, Updated, AckedBy, CreditOf;
    var w := After(Initial(start), past);
    var w1 := StoreStep(w, c, t);
    var once := NeverResent(w1, steps, a.cumAck);
    KarnAt(After(w1, steps).snd, a, now, Sending(t, LastResent(w1, steps, a.cumAck, t), w.calls[c].snap, once));
  }

  lemma KarnAt(snd: Sender, a: Ack, now: int, s: Sending)
    requires a.Valid() && a.cumAck in snd.packets && Remembers(snd.packets, a.cumAck, s)
    ensures var rtt, sample := if now < s.at then 0 else now - s.at, CreditOf(snd, a, now).sample;
            if s.once
            then BufferStage(snd, a, now).rtt == Updated(snd.rtt, rtt) && sample == Some((s.snap, rtt))
            else BufferStage(snd, a, now).rtt == snd.rtt && sample == None
  {
    hide Updated, AckedBy;
  }

  /** Without a stored packet of the cumulative number nothing is measured. */
  lemma NothingToMeasure(s: Sender, a: Ack, now: int)
    requires a.Valid() && a.cumAck !in s.packets
    ensures BufferStage(s, a, now).rtt == s.rtt && CreditOf(s, a, now).sample == None
  {
  }

  /** The credit stage counts 1340 bytes per newly acknowledged packet as delivered now, and only then measures: over
      the longer of the time since the packet was sent and the time since the delivery before it, its rate accounts
      for exactly the bytes delivered since, these included. */
  lemma CreditMeasures(w: Window, c: Credit, now: int)
    requires Consistent(w.bwe) && c.acked > 0
    ensures var b := Credited(w, c, now).bwe;
            && b.delivered == w.bwe.delivered + 1340 * c.acked && b.deliveredAt == now
            && (c.sample.None? ==> b.samples == w.bwe.samples)
            && (c.sample.Some? ==>
                  var snap := c.sample.value.0;
                  var bytes := (w.bwe.delivered + 1340 * c.acked - snap.delivered) as real;
                  if bytes > 0.0 && (now > snap.sentAt || now > snap.deliveredAt)
                  then exists r :: Measures(r, bytes, now - snap.sentAt, now - snap.deliveredAt) &&
                                   b.samples == Recent(w.bwe.samples + [r])
                  else b.samples == w.bwe.samples)
  {
    hide AfterAck, Rate, Measures, Recent, Peak, AllPositive;
    AfterAckKeepsEstimate(w.(bwe := Estimated(w.bwe, c, now)), c.acked, now);
    var counted := Delivered(w.bwe, c.acked * PACKET_MSS, now);
    assert counted.delivered == w.bwe.delivered + 1340 * c.acked;
    if c.sample.Some? {
      var snap := c.sample.value.0;
      var r := Rate(counted, snap, now);
      if r > 0.0 {
        RateMeasures(counted, snap, now);
        assert Measures(r, (counted.delivered - snap.delivered) as real, now - snap.sentAt, now - snap.deliveredAt);
      }
    }
  }
}
