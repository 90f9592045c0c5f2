/** What the window's timers and counters mean over whole runs (pkg/udp/arq/congestion.go), read off the events with
    the numbers written out. */
module CongestionRuns {
  import opened Bytes
  import BandwidthEstimation
  import opened Congestion

  // ----- the size of the window -----

  /** t is the least positive number of 1340-byte packets that covers twice the product of rate and minimum RTT. */
  ghost predicate CoversTwice(b: BandwidthEstimation.Bandwidth, t: nat) {
    var need := b.maxBW * (b.minRTT as real / 1_000_000_000.0) / 1340.0 * 2.0;
    t >= 1 && need <= t as real && (t > 1 ==> (t - 1) as real < need)
  }

  function Within(t: nat): nat {
    if t < 4 then 4 else if t > 512 then 512 else t
  }

  /** The window after an acknowledgement: four packets in a probe; as before without an estimate; otherwise the target
      between 4 and 512, which STARTUP only lets grow. */
  lemma AckResizes(w: Window, n: nat, now: int)
    ensures var after := AfterAck(w, n, now);
            && (after.probe.active ==> after.cwnd == 4)
            && (!after.probe.active && (w.bwe.maxBW == 0.0 || w.bwe.minRTT == 0) ==> after.cwnd == w.cwnd)
            && (!after.probe.active && w.bwe.maxBW != 0.0 && w.bwe.minRTT != 0 ==>
                  exists t: nat ::
                    CoversTwice(w.bwe, t) &&
                    after.cwnd == Within(if after.startup.active && t < w.cwnd then w.cwnd else t))
  {
    hide AfterAck, BandwidthEstimation.TargetCwnd;
    AckSizeIs(w, n, now);
    if w.bwe.maxBW != 0.0 && w.bwe.minRTT != 0 {
      BandwidthEstimation.TargetCoversBdp(w.bwe, PACKET_MSS, CWND_GAIN);
      assert CoversTwice(w.bwe, BandwidthEstimation.TargetCwnd(w.bwe, PACKET_MSS, CWND_GAIN));
    }
  }

  lemma AckSizeIs(w: Window, n: nat, now: int)
    ensures var after, t := AfterAck(w, n, now), BandwidthEstimation.TargetCwnd(w.bwe, PACKET_MSS, CWND_GAIN);
            after.cwnd ==
            if after.probe.active then 4
            else if t == 0 then w.cwnd
            else Within(if after.startup.active && t < w.cwnd then w.cwnd else t)
  {
    hide BandwidthEstimation.TargetCwnd, Plateau;
  }

  // ----- when STARTUP begins again -----

  /** STARTUP begins again exactly after an idle period, with at least three quarters of the window in flight, unless
      it goes on anyway. */
  lemma RestartsExactly(w: Window, n: nat)
    ensures Restarts(w, n) <==>
              (!w.startup.active || Leaves(w, n)) && w.idle.seen && w.inFlight >= w.cwnd * 3 / 4
  {
    hide Plateau;
  }

  // ----- a log of the run -----

  /** A STARTUP round: the packets acknowledged and the most in flight since it began, and how many acknowledged
      packets complete it. */
  datatype Round = Round(acked: nat, peak: nat, length: nat)

  /** A stretch of acknowledgements that left less than a quarter of the window in flight, and whether one lasted
      200 ms since STARTUP began last. */
  datatype Quiet = Quiet(since: Option<int>, seen: bool)

  /** When the last probe was entered, when it first had at most four packets in flight, and when the next is due. */
  datatype Probing = Probing(active: bool, entered: int, drained: Option<int>, due: int)

  datatype Log = Log(round: Round, quiet: Quiet, probing: Probing)

  function Left(w: Window, n: nat): nat {
    if w.inFlight < n then 0 else w.inFlight - n
  }

  function RoundAfter(w: Window, e: Event, r: Round): Round {
    match e
    case TakeSlot =>
      if w.inFlight < w.cwnd && r.peak < w.inFlight + 1 then r.(peak := w.inFlight + 1) else r
    case Estimate(_) => r
    case Acks(n, _) =>
      if Restarts(w, n) then Round(0, 0, w.cwnd)
      else if !w.startup.active || |w.bwe.samples| < 8 then r
      else if r.acked + n < r.length then r.(acked := r.acked + n)
      else Round(0, 0, if r.peak < w.cwnd / 2 || w.bwe.maxBW != 0.0 then w.cwnd else r.length)
  }

  function QuietAfter(w: Window, e: Event, q: Quiet): Quiet {
    if !e.Acks? then q else
    var now := if Restarts(w, e.n) then Quiet(None, false) else q;
    if Left(w, e.n) >= w.cwnd / 4 then now.(since := None)
    else if now.since.None? then now.(since := Some(e.at))
    else if e.at - now.since.value >= 200_000_000 then now.(seen := true)
    else now
  }

  function ProbingAfter(w: Window, e: Event, p: Probing): Probing {
    if !e.Acks? then p
    else if !p.active then
      if !PhaseUpdated(w, e.n).startup.active && e.at > p.due then Probing(true, e.at, None, p.due) else p
    else if e.at - p.entered >= 2_000_000_000 || (p.drained.Some? && e.at - p.drained.value >= 200_000_000) then
      Probing(false, p.entered, None, e.at + 10_000_000_000)
    else if p.drained.None? && Left(w, e.n) <= 4 then p.(drained := Some(e.at))
    else p
  }

  function LogOf(start: int, events: seq<Event>): Log {
    if events == [] then Log(Round(0, 0, 32), Quiet(None, false), Probing(false, 0, None, start + 10_000_000_000)) else
    var init, e := events[..|events| - 1], events[|events| - 1];
    var w, log := Run(start, init), LogOf(start, init);
    Log(RoundAfter(w, e, log.round), QuietAfter(w, e, log.quiet), ProbingAfter(w, e, log.probing))
  }

  ghost predicate RoundKept(w: Window, r: Round) {
    w.startup.roundAcked == r.acked && w.startup.roundMaxInFlight == r.peak && w.startup.roundThreshold == r.length
  }

  ghost predicate QuietKept(w: Window, q: Quiet) {
    w.idle.start == q.since && w.idle.seen == q.seen
  }

  ghost predicate ProbingKept(w: Window, p: Probing) {
    && w.probe.active == p.active && w.probe.start == p.entered && w.probe.next == p.due
    && w.probe.drainedAt == p.drained
  }

  lemma RoundStep(w: Window, e: Event, r: Round)
    requires RoundKept(w, r)
    ensures RoundKept(Apply(w, e), RoundAfter(w, e, r))
  {
    hide BandwidthEstimation.TargetCwnd, Plateau, ProbeStep;
  }

  lemma QuietStep(w: Window, e: Event, q: Quiet)
    requires QuietKept(w, q)
    ensures QuietKept(Apply(w, e), QuietAfter(w, e, q))
  {
    hide BandwidthEstimation.TargetCwnd, Plateau, ProbeStep;
  }

  /** OnAck's probe step sees the returned slots and the phase. */
  lemma AckProbes(w: Window, n: nat, at: int)
    ensures AfterAck(w, n, at).probe == ProbeStep(w.probe, PhaseUpdated(w, n).startup.active, Left(w, n), at)
  {
    hide BandwidthEstimation.TargetCwnd, Plateau, ProbeStep;
  }

  lemma ProbingStep(w: Window, e: Event, p: Probing)
    requires ProbingKept(w, p) && (!p.active ==> p.drained.None?)
    ensures ProbingKept(Apply(w, e), ProbingAfter(w, e, p))
    ensures !ProbingAfter(w, e, p).active ==> ProbingAfter(w, e, p).drained.None?
  {
    hide AfterAck, PhaseUpdated;
    if e.Acks? {
      AckProbes(w, e.n, e.at);
    }
  }

  /** Over any run the window's round counters, idle marks and probe times are those of the log. */
  lemma {:induction false} RunKeepsLog(start: int, events: seq<Event>)
    ensures var w, log := Run(start, events), LogOf(start, events);
            RoundKept(w, log.round) && QuietKept(w, log.quiet) && ProbingKept(w, log.probing)
    ensures !LogOf(start, events).probing.active ==> LogOf(start, events).probing.drained.None?
  {
    hide Apply, RoundAfter, QuietAfter, ProbingAfter, RoundKept, QuietKept, ProbingKept;
    if events == [] {
      LogStarts(start);
    } else {
      var init, e := events[..|events| - 1], events[|events| - 1];
      RunKeepsLog(start, init);
      RoundStep(Run(start, init), e, LogOf(start, init).round);
      QuietStep(Run(start, init), e, LogOf(start, init).quiet);
      ProbingStep(Run(start, init), e, LogOf(start, init).probing);
    }
  }

  lemma LogStarts(start: int)
    ensures var w := NewWindow(start);
            && RoundKept(w, Round(0, 0, 32)) && QuietKept(w, Quiet(None, false))
            && ProbingKept(w, Probing(false, 0, None, start + 10_000_000_000))
  {
  }

  // ----- what the log means -----

  /** In any run an active probe ends with an acknowledgement if and only if it was entered two seconds before or had
      first drained to four packets 200 ms before. */
  lemma ProbeEndsExactly(start: int, events: seq<Event>, n: nat, at: int)
    requires Run(start, events).probe.active
    ensures var p := LogOf(start, events).probing;
            !AfterAck(Run(start, events), n, at).probe.active <==>
              at - p.entered >= 2_000_000_000 || (p.drained.Some? && at - p.drained.value >= 200_000_000)
  {
    RunKeepsLog(start, events);
    ProbingStep(Run(start, events), Acks(n, at), LogOf(start, events).probing);
    hide AfterAck;
  }

  /** In any run a probe is entered if and only if an acknowledgement leaves the window out of STARTUP more than ten
      seconds after the run began, or after the last probe ended. */
  lemma ProbeBeginsExactly(start: int, events: seq<Event>, n: nat, at: int)
    requires !Run(start, events).probe.active
    ensures AfterAck(Run(start, events), n, at).probe.active <==>
              !AfterAck(Run(start, events), n, at).startup.active && at > LogOf(start, events).probing.due
  {
    RunKeepsLog(start, events);
    ProbingStep(Run(start, events), Acks(n, at), LogOf(start, events).probing);
    AckKeepsPhase(Run(start, events), n, at);
    hide AfterAck, PhaseUpdated;
  }

  lemma AckKeepsPhase(w: Window, n: nat, at: int)
    ensures AfterAck(w, n, at).startup == PhaseUpdated(w, n).startup
  {
    hide BandwidthEstimation.TargetCwnd, Plateau;
  }

  /** Event m is an acknowledgement that left less than a quarter of the window in flight. */
  ghost predicate LowAt(start: int, events: seq<Event>, m: nat)
    requires m < |events|
  {
    events[m].Acks? && Left(Run(start, events[..m]), events[m].n) < Run(start, events[..m]).cwnd / 4
  }

  ghost predicate RestartsAt(start: int, events: seq<Event>, m: nat)
    requires m < |events|
  {
    events[m].Acks? && Restarts(Run(start, events[..m]), events[m].n)
  }

  /** From acknowledgement i on, up to j, all acknowledgements were low and STARTUP did not begin again. */
  ghost predicate LowFrom(start: int, events: seq<Event>, i: nat, j: nat)
    requires j <= |events|
  {
    && i < j && events[i].Acks?
    && (forall m :: i <= m < j && events[m].Acks? ==> LowAt(start, events, m))
    && (forall m :: i < m < j ==> !RestartsAt(start, events, m))
  }

  lemma PrefixAt(start: int, events: seq<Event>, m: nat)
    requires m < |events| - 1
    ensures var init := events[..|events| - 1];
            && init[m] == events[m]
            && (LowAt(start, init, m) <==> LowAt(start, events, m))
            && (RestartsAt(start, init, m) <==> RestartsAt(start, events, m))
  {
    assert events[..|events| - 1][..m] == events[..m];
  }

  lemma PrefixLow(start: int, events: seq<Event>, i: nat, j: nat)
    requires events != [] && j <= |events| - 1
    ensures LowFrom(start, events[..|events| - 1], i, j) <==> LowFrom(start, events, i, j)
  {
    hide LowAt, RestartsAt;
    var init := events[..|events| - 1];
    if LowFrom(start, init, i, j) {
      forall m | i <= m < j && events[m].Acks? ensures LowAt(start, events, m) {
        PrefixAt(start, events, m);
      }
      forall m | i < m < j ensures !RestartsAt(start, events, m) {
        PrefixAt(start, events, m);
      }
    }
    if LowFrom(start, events, i, j) {
      forall m | i <= m < j && init[m].Acks? ensures LowAt(start, init, m) {
        PrefixAt(start, events, m);
      }
      forall m | i < m < j ensures !RestartsAt(start, init, m) {
        PrefixAt(start, events, m);
      }
    }
  }

  /** The log's last step, in the terms used here. */
  lemma LastQuiet(start: int, events: seq<Event>)
    requires events != []
    ensures var k := |events| - 1;
            var before, after, e := LogOf(start, events[..k]).quiet, LogOf(start, events).quiet, events[k];
            && (!e.Acks? ==> after == before && !RestartsAt(start, events, k))
            && (after.since.Some? && e.Acks? ==> LowAt(start, events, k))
            && (after.since.Some? ==>
                  (after.since == before.since && !RestartsAt(start, events, k)) ||
                  (e.Acks? && after.since.value == e.at))
            && (after.seen ==> !RestartsAt(start, events, k))
            && (after.seen && !before.seen ==>
                  e.Acks? && after.since == before.since && before.since.Some? &&
                  e.at - before.since.value >= 200_000_000)
  {
    hide Restarts, Run, RoundAfter, ProbingAfter;
  }

  lemma ExtendLow(start: int, events: seq<Event>, i: nat)
    requires events != [] && LowFrom(start, events, i, |events| - 1) && !RestartsAt(start, events, |events| - 1)
    requires events[|events| - 1].Acks? ==> LowAt(start, events, |events| - 1)
    ensures LowFrom(start, events, i, |events|)
  {
    hide LowAt, RestartsAt;
  }

  lemma NothingYet(start: int)
    ensures LogOf(start, []).quiet == Quiet(None, false)
  {
  }

  lemma OneLow(start: int, events: seq<Event>)
    requires events != [] && events[|events| - 1].Acks? && LowAt(start, events, |events| - 1)
    ensures LowFrom(start, events, |events| - 1, |events|)
  {
    hide LowAt, RestartsAt;
  }

  lemma {:induction false} SinceMeansLow(start: int, events: seq<Event>)
    ensures var since := LogOf(start, events).quiet.since;
            since.Some? ==> exists i: nat :: LowFrom(start, events, i, |events|) && events[i].at == since.value
  {
    hide LogOf, LowAt, RestartsAt;
    if events == [] {
      NothingYet(start);
    } else if LogOf(start, events).quiet.since.Some? {
      var init, k := events[..|events| - 1], |events| - 1;
      LastQuiet(start, events);
      var since, before := LogOf(start, events).quiet.since, LogOf(start, init).quiet.since;
      if since == before && !RestartsAt(start, events, k) {
        SinceMeansLow(start, init);
        var i: nat :| LowFrom(start, init, i, |init|) && init[i].at == before.value;
        PrefixLow(start, events, i, k);
        LowFirst(start, events, i, k);
        ExtendLow(start, events, i);
      } else {
        OneLow(start, events);
      }
    }
  }

  /** Acknowledgements 200 ms apart and all between them were low, and STARTUP did not begin again since. */
  ghost predicate IdleSpan(start: int, events: seq<Event>, i: nat, j: nat) {
    && j < |events| && LowFrom(start, events, i, j + 1)
    && events[j].Acks? && events[j].at - events[i].at >= 200_000_000
    && forall m :: j < m < |events| ==> !RestartsAt(start, events, m)
  }

  lemma PrefixIdle(start: int, events: seq<Event>, i: nat, j: nat)
    requires events != [] && IdleSpan(start, events[..|events| - 1], i, j) && !RestartsAt(start, events, |events| - 1)
    ensures IdleSpan(start, events, i, j)
  {
    hide LowAt, RestartsAt, LowFrom;
    PrefixLow(start, events, i, j + 1);
    LowFirst(start, events, i, j + 1);
    forall m | j < m < |events| ensures !RestartsAt(start, events, m) {
      if m < |events| - 1 {
        PrefixAt(start, events, m);
      }
    }
  }

  lemma LowFirst(start: int, events: seq<Event>, i: nat, j: nat)
    requires j <= |events| && LowFrom(start, events, i, j)
    ensures i < j && events[i].Acks?
  {
  }

  /** In any run: an idle period counts as seen only if, since STARTUP began last, acknowledgements 200 ms apart and all
      between them left less than a quarter of the window in flight. */
  lemma {:induction false} SeenMeansIdle(start: int, events: seq<Event>)
    ensures Run(start, events).idle.seen ==> exists i: nat, j: nat :: IdleSpan(start, events, i, j)
  {
    RunKeepsLog(start, events);
    if events != [] && Run(start, events).idle.seen {
      var init, k := events[..|events| - 1], |events| - 1;
      RunKeepsLog(start, init);
      LastQuiet(start, events);
      SinceMeansLow(start, events);
      SeenMeansIdle(start, init);
      hide Run, LogOf, LowAt, RestartsAt;
      if LogOf(start, init).quiet.seen {
        var i: nat, j: nat :| IdleSpan(start, init, i, j);
        PrefixIdle(start, events, i, j);
      } else {
        var i: nat :| LowFrom(start, events, i, |events|) && events[i].at == LogOf(start, events).quiet.since.value;
        assert IdleSpan(start, events, i, k);
      }
    }
  }
}
