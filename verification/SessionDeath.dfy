/** A session whose peer is unreachable always ends (pkg/udp/arq/controller.go, RetransmitTick). */
module SessionDeath {
  import opened Ordering
  import opened RttEstimation
  import opened BandwidthEstimation
  import opened AckWire
  import opened AckTracking
  import opened Reordering
  import opened SendBuffering
  import opened ArqSender
  import opened Session
  import opened SessionRuns
  import opened SessionTheorems

  /** No acknowledgement is taken, and ticks follow each other, and the time t, within `gap`. */
  ghost predicate Quiet(t: int, steps: seq<Step>, gap: nat)
    decreases |steps|
  {
    steps == [] ||
    if steps[0].Tick? then t <= steps[0].now <= t + gap && Quiet(steps[0].now, steps[1..], gap)
    else !steps[0].TakeAck? && Quiet(t, steps[1..], gap)
  }

  ghost function LastTick(t: int, steps: seq<Step>): int
    decreases |steps|
  {
    if steps == [] then t else LastTick(if steps[0].Tick? then steps[0].now else t, steps[1..])
  }

  /** The lowest un-acknowledged packet heads every expired batch it belongs to, so the cap of 32 never hides it. */
  lemma LowestHeadsTheBatch(s: Sender, k: nat, now: int)
    requires IsLeast(k, Unacked(s.packets)) && IsExpired(s.packets, k, now, s.rtt.rto)
    ensures TickBatch(s, now) != [] && TickBatch(s, now)[0] == k
  {
    var S := ExpiredSet(s.packets, now, s.rtt.rto);
    assert k in S && forall x :: x in S ==> x in Unacked(s.packets);
    InElements(Sorted(S), k);
    var i :| 0 <= i < |Sorted(S)| && Sorted(S)[i] == k;
    assert Sorted(S)[0] in Elements(Sorted(S));
  }

  /** The un-acknowledged numbers below k. */
  function UnackedBelow(m: Packets, k: nat): set<nat> {
    set x | x in Unacked(m) && x < k
  }

  /** A packet with fewer than 32 un-acknowledged ones below it is in every batch it is due for. */
  lemma DueMeansInBatch(s: Sender, k: nat, now: int)
    requires IsExpired(s.packets, k, now, s.rtt.rto) && |UnackedBelow(s.packets, k)| < MAX_RETRANSMIT_BATCH
    ensures k in TickBatch(s, now)
  {
    var S := ExpiredSet(s.packets, now, s.rtt.rto);
    SubsetSize((set x | x in S && x < k), UnackedBelow(s.packets, k));
    AmongTheFirst(S, k, MAX_RETRANSMIT_BATCH);
  }

  /** Sweeping a batch that contains k either kills the session or re-sends k exactly once. */
  lemma {:induction false} SweepOn(m: Packets, batch: seq<nat>, now: int, k: nat)
    requires Ascending(batch) && k in batch && k in m
    ensures var swept := Sweep(m, batch, now);
            swept.dead ||
            (m[k].retransmits < MAX_RETRANSMITS && k in swept.packets &&
             swept.packets[k] == m[k].(lastSentAt := now, retransmits := m[k].retransmits + 1))
    decreases |batch|
  {
    var rest := batch[1..];
    if !(batch[0] in m && m[batch[0]].retransmits >= MAX_RETRANSMITS) {
      var m1 := Resent(m, batch[0], now);
      if batch[0] == k {
        SweepIsResend(m1, rest, now);
        assert forall x :: x in Sweep(m1, rest, now).resent ==> x in rest;
        ResentAllUntouched(m1, Sweep(m1, rest, now).resent, now, k);
      } else {
        assert k in rest;
        SweepOn(m1, rest, now, k);
      }
    }
  }

  /** What a tick does to the entry of a packet with fewer than 32 un-acknowledged ones below it: nothing before its
      timeout, and after it one retransmission unless the session dies; at fifteen retransmissions it dies. */
  lemma TickOnLow(s: Sender, k: nat, now: int)
    requires k in Unacked(s.packets) && |UnackedBelow(s.packets, k)| < MAX_RETRANSMIT_BATCH
    ensures var s' := Ticked(s, now);
            && (!IsExpired(s.packets, k, now, s.rtt.rto) ==> k in s'.packets && s'.packets[k] == s.packets[k])
            && (IsExpired(s.packets, k, now, s.rtt.rto) ==>
                  (s'.dead && s'.closed) ||
                  (s.packets[k].retransmits < MAX_RETRANSMITS && k in s'.packets &&
                   s'.packets[k] ==
                   s.packets[k].(lastSentAt := now, retransmits := s.packets[k].retransmits + 1)))
  {
    var m, batch := s.packets, TickBatch(s, now);
    if IsExpired(m, k, now, s.rtt.rto) {
      DueMeansInBatch(s, k, now);
      SweepOn(m, batch, now, k);
    } else {
      SweepIsResend(m, batch, now);
      BatchWithin(ExpiredSet(m, now, s.rtt.rto), MAX_RETRANSMIT_BATCH);
      assert k !in batch;
      assert forall x :: x in TickResent(s, now) ==> x in batch;
      ResentAllUntouched(m, TickResent(s, now), now, k);
    }
  }

  /** When the packet counts as sent last, seen from time t: a timeout that is overdue at t started at most one
      maximal timeout before t. */
  ghost function SentBy(p: SentPacket, t: int): int {
    Max(p.lastSentAt, t - MAX_RTO)
  }

  /** Bookkeeping at time t of a session that is still alive: every retransmission still to come costs at most
      one maximal timeout plus one tick gap, and together they end by `base`. */
  ghost predicate Alive(s: Sender, k: nat, t: int, gap: nat, base: int, budget: nat) {
    && k in Unacked(s.packets) && s.rtt.rto <= MAX_RTO
    && s.packets[k].retransmits + budget >= MAX_RETRANSMITS
    && SentBy(s.packets[k], t) + budget * (MAX_RTO + gap) <= base
  }

  lemma TickKeepsAlive(s: Sender, k: nat, t: int, gap: nat, base: int, budget: nat, now: int)
    requires Alive(s, k, t, gap, base, budget) && t <= now <= t + gap
    requires |UnackedBelow(s.packets, k)| < MAX_RETRANSMIT_BATCH
    ensures Ticked(s, now).dead || Alive(Ticked(s, now), k, now, gap, base, budget) ||
            (budget > 0 && Alive(Ticked(s, now), k, now, gap, base, budget - 1))
  {
    TickOnLow(s, k, now);
    TickOnlyResends(s, now);
    var s' := Ticked(s, now);
    SameButTimingUnacked(s.packets, s'.packets);
    assert s'.rtt.rto <= MAX_RTO;
    if !s'.dead && IsExpired(s.packets, k, now, s.rtt.rto) {
      assert budget > 0;
      assert budget * (MAX_RTO + gap) == (budget - 1) * (MAX_RTO + gap) + (MAX_RTO + gap);
    }
  }

  lemma AliveBound(s: Sender, k: nat, t: int, gap: nat, base: int, budget: nat)
    requires Alive(s, k, t, gap, base, budget)
    ensures t <= base + MAX_RTO
  {
    assert budget * (MAX_RTO + gap) >= 0;
  }

  lemma NewPacketKeepsAlive(s: Sender, k: nat, t: int, gap: nat, base: int, budget: nat, p: Packet, sp: SentPacket)
    requires Alive(s, k, t, gap, base, budget) && p.pktNum != k
    ensures Alive(s.(packets := s.packets[p.pktNum := sp]), k, t, gap, base, budget)
  {
  }

  // ----- along a run of the session -----

  lemma DeathIsFinalInStep(w: World, step: Step)
    requires Enabled(w, step) && Sane(w) && w.snd.dead
    ensures Next(w, step).snd.dead
  {
    hide Credited, AckedBy, Updated, ResentAll, RecoveryBatch, Sweep, TickBatch, CreditOf, SampleOf, TickResent;
  }

  lemma {:induction false} DeathIsFinal(w: World, steps: seq<Step>)
    requires IsRun(w, steps) && w.snd.dead
    ensures After(w, steps).snd.dead
    decreases |steps|
  {
    hide Enabled, Next;
    if steps != [] {
      DeathIsFinalInStep(w, steps[0]);
      DeathIsFinal(Next(w, steps[0]), steps[1..]);
    }
  }

  /** The numbers taken by a Send that has not stored its packet yet. */
  function Unstored(calls: map<nat, Call>): set<nat> {
    set c | c in calls && calls[c].phase == Numbered :: calls[c].packet.pktNum
  }

  /** Everything that can come before k in a batch, now or later. */
  function Below(w: World, k: nat): set<nat> {
    set x | x in Unacked(w.snd.packets) + Unstored(w.calls) && x < k
  }

  /** Packet k is un-acknowledged and a batch can hold it along with everything below it. */
  ghost predicate WithinReach(w: World, k: nat) {
    && w.handling.Ready? && k in Unacked(w.snd.packets) && k <= w.snd.next && k !in Unstored(w.calls)
    && |Below(w, k)| < MAX_RETRANSMIT_BATCH
  }

  lemma ReachableNumber(w: World, k: nat)
    requires Inv(w) && w.handling.Ready? && k in Unacked(w.snd.packets) && |Below(w, k)| < MAX_RETRANSMIT_BATCH
    ensures WithinReach(w, k)
  {
    hide NetOk, LogOk, AckedOk, AcknowledgedOk, CountsOk, StreamsOk, CallsOk, HolesOk, ReceiveOk, InsertingOk, Below;
    forall c | InPhase(w.calls, c, Numbered) ensures w.calls[c].packet.pktNum != k {
      assert !IsStored(w.calls[c].packet.pktNum, w.snd.packets, w.hist.highCum);
    }
  }

  /** What a step without acknowledgement does to the numbers that matter. */
  lemma StepNumbers(w: World, k: nat, step: Step)
    requires Sane(w) && w.handling.Ready? && k <= w.snd.next && Enabled(w, step) && !step.TakeAck?
    ensures var w' := Next(w, step);
            && w'.handling.Ready? && w.snd.next <= w'.snd.next
            && Unacked(w.snd.packets) - Unstored(w.calls) <= Unacked(w'.snd.packets)
            && (forall x :: x in Unacked(w'.snd.packets) + Unstored(w'.calls) ==>
                  x in Unacked(w.snd.packets) + Unstored(w.calls) || x > k)
            && (forall x :: x in Unstored(w'.calls) ==> x in Unstored(w.calls) || x > k)
  {
    hide Ticked, TickResent, CreditStage, RecoverStage, RecoveryBatch, Busy, Reports, Inserted, Record, Datagrams;
    hide Encoded, SnapshotOf, NumberedStreams, AbandonedStreams, Decoded, Consistent;
    if step.Tick? {
      TickOnlyResends(w.snd, step.now);
      SameButTimingUnacked(w.snd.packets, Ticked(w.snd, step.now).packets);
    }
  }

  /** Whatever happens besides acknowledgements, the packet stays within reach: nothing new comes below it. */
  lemma StepStaysWithinReach(w: World, k: nat, step: Step)
    requires Sane(w) && WithinReach(w, k) && Enabled(w, step) && !step.TakeAck?
    ensures WithinReach(Next(w, step), k)
  {
    StepNumbers(w, k, step);
    hide Enabled, Sane, Next, Unacked, Unstored;
    SubsetSize(Below(Next(w, step), k), Below(w, k));
  }

  lemma StepKeepsAlive(w: World, k: nat, step: Step, t: int, gap: nat, base: int, budget: nat)
    requires Sane(w) && WithinReach(w, k) && Enabled(w, step) && !step.TakeAck? && !step.Tick?
    requires Alive(w.snd, k, t, gap, base, budget)
    ensures Alive(Next(w, step).snd, k, t, gap, base, budget)
  {
    if step.Store? {
      var call := w.calls[step.call];
      assert call.packet.pktNum in Unstored(w.calls);
      NewPacketKeepsAlive(w.snd, k, t, gap, base, budget, call.packet, NewlySent(call.packet, step.now, call.snap));
    }
    hide Unacked, Below, SentBy, CreditStage, RecoverStage, RecoveryBatch, Busy, Reports, Inserted;
  }

  lemma {:induction false} AliveUntilBase(w: World, k: nat, t: int, gap: nat, base: int, budget: nat, steps: seq<Step>)
    requires Inv(w) && WithinReach(w, k) && Alive(w.snd, k, t, gap, base, budget)
    requires IsRun(w, steps) && Quiet(t, steps, gap)
    ensures After(w, steps).snd.dead || LastTick(t, steps) <= base + MAX_RTO
    decreases |steps|
  {
    hide Inv, Alive, Ticked, WithinReach, Enabled, Sane, Next;
    if steps == [] {
      AliveBound(w.snd, k, t, gap, base, budget);
    } else {
      var step, rest := steps[0], steps[1..];
      var w' := Next(w, step);
      StepInv(w, step);
      StepStaysWithinReach(w, k, step);
      if !step.Tick? {
        StepKeepsAlive(w, k, step, t, gap, base, budget);
        AliveUntilBase(w', k, t, gap, base, budget, rest);
      } else {
        ReachBounds(w, k);
        TickKeepsAlive(w.snd, k, t, gap, base, budget, step.now);
        TickSender(w, step.now);
        if w'.snd.dead {
          DeathIsFinal(w', rest);
        } else if Alive(w'.snd, k, step.now, gap, base, budget) {
          AliveUntilBase(w', k, step.now, gap, base, budget, rest);
        } else {
          AliveUntilBase(w', k, step.now, gap, base, budget - 1, rest);
        }
      }
    }
  }

  lemma ReachBounds(w: World, k: nat)
    requires WithinReach(w, k)
    ensures |UnackedBelow(w.snd.packets, k)| < MAX_RETRANSMIT_BATCH
  {
    SubsetSize(UnackedBelow(w.snd.packets, k), Below(w, k));
  }

  lemma TickSender(w: World, now: int)
    requires Sane(w)
    ensures Enabled(w, Tick(now)) && Next(w, Tick(now)).snd == Ticked(w.snd, now)
  {
    hide Ticked, TickResent;
  }

  /** From every reachable state, for every un-acknowledged packet k with fewer than 32 un-acknowledged or unstored
      numbers below it: whatever the run does from time t on, as long as no acknowledgement is taken and ticks come
      no further apart than `gap`, the session is declared dead once fifteen timeouts of at most 500 ms with their
      tick gaps, plus one last timeout, have passed since k was last sent (or since 500 ms before t, if later). */
  lemma UnreachableSessionDies(start: int, past: seq<Step>, k: nat, t: int, gap: nat, steps: seq<Step>)
    requires IsRun(Initial(start), past)
    requires var w := After(Initial(start), past);
             && w.handling.Ready? && k in Unacked(w.snd.packets) && |Below(w, k)| < MAX_RETRANSMIT_BATCH
             && IsRun(w, steps) && Quiet(t, steps, gap)
             && LastTick(t, steps) > SentBy(w.snd.packets[k], t) + MAX_RETRANSMITS * (MAX_RTO + gap) + MAX_RTO
    ensures After(After(Initial(start), past), steps).snd.dead
  {
    hide Inv, Below, Unacked, Quiet, LastTick;
    ReachableInv(start, past);
    DiesFrom(After(Initial(start), past), k, t, gap, steps);
  }

  lemma DiesFrom(w: World, k: nat, t: int, gap: nat, steps: seq<Step>)
    requires Inv(w) && w.handling.Ready? && k in Unacked(w.snd.packets) && |Below(w, k)| < MAX_RETRANSMIT_BATCH
    requires IsRun(w, steps) && Quiet(t, steps, gap)
    requires LastTick(t, steps) > SentBy(w.snd.packets[k], t) + MAX_RETRANSMITS * (MAX_RTO + gap) + MAX_RTO
    ensures After(w, steps).snd.dead
  {
    hide Inv, IsRun, After, Below, Quiet, LastTick, WithinReach;
    RtoBounded(w);
    ReachableNumber(w, k);
    var base := SentBy(w.snd.packets[k], t) + MAX_RETRANSMITS * (MAX_RTO + gap);
    AliveUntilBase(w, k, t, gap, base, MAX_RETRANSMITS, steps);
  }

  lemma RtoBounded(w: World)
    requires Inv(w)
    ensures w.snd.rtt.rto <= MAX_RTO
  {
    hide NetOk, LogOk, NumbersOk, AckedOk, AcknowledgedOk, CountsOk, StreamsOk, CallsOk, HolesOk, ReceiveOk;
    hide InsertingOk;
  }

  /** With the transport's 50 ms ticker that is at most 8.75 seconds from t on, in every case. */
  lemma DeathWithinNineSeconds(start: int, past: seq<Step>, k: nat, t: int, steps: seq<Step>)
    requires IsRun(Initial(start), past)
    requires var w := After(Initial(start), past);
             && w.handling.Ready? && k in Unacked(w.snd.packets) && |Below(w, k)| < MAX_RETRANSMIT_BATCH
             && w.snd.packets[k].lastSentAt <= t
             && IsRun(w, steps) && Quiet(t, steps, 50 * MILLISECOND)
             && LastTick(t, steps) > t + 8750 * MILLISECOND
    ensures After(After(Initial(start), past), steps).snd.dead
  {
    UnreachableSessionDies(start, past, k, t, 50 * MILLISECOND, steps);
  }
}
