/** The BBR-like congestion window (pkg/udp/arq/congestion.go). Times are nanoseconds; `None` is Go's zero time. */
module Congestion {
  import opened Bytes
  import opened RttEstimation
  import opened BandwidthEstimation

  const PACKET_MSS := 1340
  const STARTUP_CWND := 32
  const MIN_CWND := 4
  const MAX_CWND := 512
  const CWND_GAIN := 2.0
  const STARTUP_FULL_BW_COUNT := 3
  const STARTUP_FULL_BW_THRESH := 1.25
  const IDLE_AFTER := 200 * MILLISECOND
  const PROBE_RTT_INTERVAL := 10 * SECOND
  const PROBE_RTT_DURATION := 200 * MILLISECOND
  const PROBE_RTT_CWND := 4
  const PROBE_RTT_MAX_WAIT := 2 * SECOND

  datatype Startup = Startup(
    active: bool, fullBWCount: nat, lastMaxBW: real, roundAcked: nat, roundThreshold: nat, roundMaxInFlight: nat)

  datatype Idle = Idle(seen: bool, start: Option<int>)

  datatype Probe = Probe(active: bool, start: int, drainedAt: Option<int>, lastEnd: Option<int>, next: int)

  datatype Window = Window(
    cwnd: nat, inFlight: nat, bwe: Bandwidth, startup: Startup, idle: Idle, probe: Probe)

  function NewWindow(now: int): Window {
    Window(STARTUP_CWND, 0, NewBandwidth(now), Startup(true, 0, 0.0, 0, STARTUP_CWND, 0), Idle(false, None),
           Probe(false, 0, None, None, now + PROBE_RTT_INTERVAL))
  }

  predicate CanAcquire(w: Window) {
    w.inFlight < w.cwnd
  }

  function Acquired(w: Window): Window {
    w.(inFlight := w.inFlight + 1,
       startup := w.startup.(roundMaxInFlight := Max(w.startup.roundMaxInFlight, w.inFlight + 1)))
  }

  // ----- the stages of OnAck, in order -----

  function Released(w: Window, n: nat): Window {
    w.(inFlight := Max(w.inFlight - n, 0))
  }

  predicate Plateau(maxBW: real, lastMaxBW: real) {
    lastMaxBW > 0.0 && maxBW / lastMaxBW < STARTUP_FULL_BW_THRESH
  }

  function StartupRound(s: Startup, cwnd: nat, bwe: Bandwidth, acked: nat): Startup {
    if !IsStable(bwe) then s else
    if s.roundAcked + acked < s.roundThreshold then s.(roundAcked := s.roundAcked + acked)
    else if s.roundMaxInFlight < cwnd / 2 then
      s.(roundAcked := 0, roundMaxInFlight := 0, roundThreshold := cwnd)
    else if bwe.maxBW == 0.0 then
      s.(roundAcked := 0, roundMaxInFlight := 0)
    else
      var full := if Plateau(bwe.maxBW, s.lastMaxBW) then s.fullBWCount + 1 else 0;
      Startup(!(Plateau(bwe.maxBW, s.lastMaxBW) && full >= STARTUP_FULL_BW_COUNT) && s.active,
              full, bwe.maxBW, 0, cwnd, 0)
  }

  function StartupChecked(w: Window, acked: nat): Window {
    if w.startup.active then w.(startup := StartupRound(w.startup, w.cwnd, w.bwe, acked)) else w
  }

  function Reentered(w: Window, wasFullyUtilized: bool): Window {
    if !w.startup.active && w.idle.seen && wasFullyUtilized then
      w.(startup := Startup(true, 0, 0.0, 0, w.cwnd, 0), idle := Idle(false, None))
    else w
  }

  function ProbeStep(p: Probe, inStartup: bool, inFlight: nat, now: int): Probe {
    if p.active then
      var drainedAt := if p.drainedAt.None? && inFlight <= PROBE_RTT_CWND then Some(now) else p.drainedAt;
      var drained := drainedAt.Some? && now - drainedAt.value >= PROBE_RTT_DURATION;
      var timedOut := now - p.start >= PROBE_RTT_MAX_WAIT;
      if drained || timedOut then Probe(false, p.start, None, Some(now), now + PROBE_RTT_INTERVAL)
      else p.(drainedAt := drainedAt)
    else if !inStartup && now > p.next then p.(active := true, start := now, drainedAt := None)
    else p
  }

  function ProbeChecked(w: Window, now: int): Window {
    w.(probe := ProbeStep(w.probe, w.startup.active, w.inFlight, now))
  }

  function IdleTracked(w: Window, now: int): Window {
    if w.inFlight < w.cwnd / 4 then
      match w.idle.start
      case None => w.(idle := w.idle.(start := Some(now)))
      case Some(t) => if now - t >= IDLE_AFTER then w.(idle := w.idle.(seen := true)) else w
    else w.(idle := w.idle.(start := None))
  }

  function Clamp(n: nat): (c: nat)
    ensures MIN_CWND <= c <= MAX_CWND
    ensures MIN_CWND <= n <= MAX_CWND ==> c == n
  {
    if n < MIN_CWND then MIN_CWND else if n > MAX_CWND then MAX_CWND else n
  }

  function Recalculated(w: Window): Window {
    if w.probe.active then w.(cwnd := PROBE_RTT_CWND) else
    var target := TargetCwnd(w.bwe, PACKET_MSS, CWND_GAIN);
    if target <= 0 then w
    else if w.startup.active then w.(cwnd := Clamp(Max(target, w.cwnd)))
    else w.(cwnd := Clamp(target))
  }

  /** The first half of OnAck: n slots return and STARTUP may end or begin again. */
  function PhaseUpdated(w: Window, n: nat): Window {
    var wasFullyUtilized := w.inFlight >= w.cwnd * 3 / 4;
    Reentered(StartupChecked(Released(w, n), n), wasFullyUtilized)
  }

  /** The second half: the probe and idle timers advance and the window is recomputed. */
  function Resized(w: Window, now: int): Window {
    Recalculated(IdleTracked(ProbeChecked(w, now), now))
  }

  function AfterAck(w: Window, n: nat, now: int): Window {
    Resized(PhaseUpdated(w, n), now)
  }

  function Available(w: Window): nat {
    Max(w.cwnd - w.inFlight, 0)
  }

  // ----- bounds -----

  ghost predicate Sized(w: Window) {
    MIN_CWND <= w.cwnd <= MAX_CWND && w.inFlight <= MAX_CWND
  }

  lemma AfterAckSized(w: Window, n: nat, now: int)
    requires Sized(w)
    ensures Sized(AfterAck(w, n, now)) && AfterAck(w, n, now).inFlight == Max(w.inFlight - n, 0)
    ensures AfterAck(w, n, now).bwe == w.bwe
  {
  }

  lemma AfterAckPinned(w: Window, n: nat, now: int)
    ensures AfterAck(w, n, now).probe.active ==> AfterAck(w, n, now).cwnd == PROBE_RTT_CWND
  {
  }

  /** STARTUP ends only when a full, network-limited round with stable estimates is the third in a row whose
      delivery rate grew by less than a quarter. */
  lemma StartupEndsOnPlateau(w: Window, n: nat, now: int)
    requires w.startup.active && !AfterAck(w, n, now).startup.active
    ensures IsStable(w.bwe) && w.startup.roundAcked + n >= w.startup.roundThreshold
    ensures w.startup.roundMaxInFlight >= w.cwnd / 2 && Plateau(w.bwe.maxBW, w.startup.lastMaxBW)
    ensures w.startup.fullBWCount + 1 >= STARTUP_FULL_BW_COUNT
  {
    hide TargetCwnd, Plateau;
  }

  /** While in STARTUP and not probing, the window never shrinks. */
  lemma StartupNeverShrinks(w: Window, n: nat, now: int)
    requires Sized(w)
    ensures var after := AfterAck(w, n, now);
            after.startup.active && !after.probe.active ==> after.cwnd >= w.cwnd
  {
    hide TargetCwnd, Plateau;
  }

  // ----- whole runs -----

  /** What can happen to the window: a slot is taken, an acknowledgement of n packets arrives, or the
      bandwidth estimate becomes anything at all. */
  datatype Event = TakeSlot | Acks(n: nat, at: int) | Estimate(bwe: Bandwidth)

  function Apply(w: Window, e: Event): Window {
    match e
    case TakeSlot => if CanAcquire(w) then Acquired(w) else w
    case Acks(n, at) => AfterAck(w, n, at)
    case Estimate(b) => w.(bwe := b)
  }

  function Run(start: int, events: seq<Event>): Window {
    if events == [] then NewWindow(start)
    else Apply(Run(start, events[..|events| - 1]), events[|events| - 1])
  }

  /** The clock never runs backwards. */
  ghost predicate Timed(start: int, events: seq<Event>) {
    && (forall i :: 0 <= i < |events| && events[i].Acks? ==> start <= events[i].at)
    && (forall i, j :: 0 <= i < j < |events| && events[i].Acks? && events[j].Acks? ==> events[i].at <= events[j].at)
  }

  ghost predicate Enters(start: int, events: seq<Event>, i: nat)
    requires i < |events|
  {
    !Run(start, events[..i]).probe.active && Run(start, events[..i + 1]).probe.active
  }

  ghost predicate Exits(start: int, events: seq<Event>, i: nat)
    requires i < |events|
  {
    Run(start, events[..i]).probe.active && !Run(start, events[..i + 1]).probe.active
  }

  lemma RunStep(start: int, events: seq<Event>, i: nat)
    requires i < |events|
    ensures Run(start, events[..i + 1]) == Apply(Run(start, events[..i]), events[i])
  {
    assert events[..i + 1][..i] == events[..i];
  }

  /** In any run 4 <= cwnd <= 512 and inFlight <= 512, and a pending probe pins the window to four packets. */
  lemma {:induction false} RunSized(start: int, events: seq<Event>)
    ensures Sized(Run(start, events))
    ensures Run(start, events).probe.active ==> Run(start, events).cwnd == PROBE_RTT_CWND
  {
    if events != [] {
      var before, last := Run(start, events[..|events| - 1]), events[|events| - 1];
      RunSized(start, events[..|events| - 1]);
      if last.Acks? {
        AfterAckSized(before, last.n, last.at);
        AfterAckPinned(before, last.n, last.at);
      }
    }
  }

  /** The time a state was last acknowledged at: `latest` bounds every acknowledgement so far. */
  ghost predicate ProbeInvariant(w: Window, latest: int) {
    w.probe.active ==> w.cwnd == PROBE_RTT_CWND && w.probe.start <= latest < w.probe.start + PROBE_RTT_MAX_WAIT
  }

  lemma AfterAckProbe(w: Window, n: nat, latest: int, now: int)
    requires ProbeInvariant(w, latest) && latest <= now
    ensures ProbeInvariant(AfterAck(w, n, now), now)
    ensures !w.probe.active && AfterAck(w, n, now).probe.active ==>
              now > w.probe.next && !AfterAck(w, n, now).startup.active && AfterAck(w, n, now).probe.start == now
    ensures w.probe.active && !AfterAck(w, n, now).probe.active ==>
              AfterAck(w, n, now).probe.next == now + PROBE_RTT_INTERVAL
    ensures AfterAck(w, n, now).probe.active == w.probe.active ==>
              AfterAck(w, n, now).probe.next == w.probe.next && AfterAck(w, n, now).probe.start == w.probe.start
    ensures !w.probe.active && AfterAck(w, n, now).probe.active ==> AfterAck(w, n, now).probe.next == w.probe.next
  {
  }

  ghost function Latest(start: int, events: seq<Event>): int {
    if events == [] then start else
    var last := events[|events| - 1];
    if last.Acks? then last.at else Latest(start, events[..|events| - 1])
  }

  lemma {:induction false} LatestBounds(start: int, events: seq<Event>)
    requires Timed(start, events)
    ensures start <= Latest(start, events)
    ensures forall i :: 0 <= i < |events| && events[i].Acks? ==> events[i].at <= Latest(start, events)
  {
    if events != [] && !events[|events| - 1].Acks? {
      LatestBounds(start, events[..|events| - 1]);
    }
  }

  /** ProbeRTT can never stick: right after every acknowledgement of any run, an active probe was entered less
      than two seconds before, whatever STARTUP did meanwhile. */
  lemma {:induction false} ProbeNeverSticks(start: int, events: seq<Event>)
    requires Timed(start, events)
    ensures ProbeInvariant(Run(start, events), Latest(start, events))
  {
    if events != [] {
      var init, last := events[..|events| - 1], events[|events| - 1];
      ProbeNeverSticks(start, init);
      if last.Acks? {
        LatestBounds(start, init);
        LatestIsEarlier(start, events);
        AfterAckProbe(Run(start, init), last.n, Latest(start, init), last.at);
      }
    }
  }

  lemma {:induction false} LatestIsEarlier(start: int, events: seq<Event>)
    requires Timed(start, events) && events != [] && events[|events| - 1].Acks?
    ensures Latest(start, events[..|events| - 1]) <= events[|events| - 1].at
  {
    LatestIsAtMost(start, events[..|events| - 1], events[|events| - 1].at);
  }

  lemma {:induction false} LatestIsAtMost(start: int, events: seq<Event>, bound: int)
    requires start <= bound && forall i :: 0 <= i < |events| && events[i].Acks? ==> events[i].at <= bound
    ensures Latest(start, events) <= bound
  {
    if events != [] && !events[|events| - 1].Acks? {
      LatestIsAtMost(start, events[..|events| - 1], bound);
    }
  }

  /** A probe is entered only by an acknowledgement, only outside STARTUP. */
  lemma EntryIsFromSteady(start: int, events: seq<Event>, i: nat)
    requires Timed(start, events) && i < |events| && Enters(start, events, i)
    ensures events[i].Acks? && !Run(start, events[..i + 1]).startup.active
    ensures events[i].at > Run(start, events[..i]).probe.next
  {
    RunStep(start, events, i);
    ProbeNeverSticks(start, events[..i]);
    if events[i].Acks? {
      LatestIsAtMost(start, events[..i], events[i].at);
      AfterAckProbe(Run(start, events[..i]), events[i].n, Latest(start, events[..i]), events[i].at);
    }
  }

  /** From the exit at event j on, no probe is due before ten seconds have passed. */
  lemma {:induction false} NextProbeIsTenSecondsAway(start: int, events: seq<Event>, j: nat, i: nat)
    requires Timed(start, events) && j < i <= |events| && Exits(start, events, j)
    ensures events[j].Acks? && Run(start, events[..i]).probe.next >= events[j].at + PROBE_RTT_INTERVAL
    decreases i
  {
    hide AfterAck;
    RunStep(start, events, i - 1);
    var before, e := Run(start, events[..i - 1]), events[i - 1];
    ProbeNeverSticks(start, events[..i - 1]);
    if e.Acks? {
      LatestIsAtMost(start, events[..i - 1], e.at);
      AfterAckProbe(before, e.n, Latest(start, events[..i - 1]), e.at);
    }
    if j < i - 1 {
      NextProbeIsTenSecondsAway(start, events, j, i - 1);
    }
  }

  /** Each entry is more than ten seconds after every earlier exit. */
  lemma EntriesAreSpaced(start: int, events: seq<Event>, j: nat, i: nat)
    requires Timed(start, events) && j < i < |events|
    requires Exits(start, events, j) && Enters(start, events, i)
    ensures events[j].Acks? && events[i].Acks? && events[i].at > events[j].at + PROBE_RTT_INTERVAL
  {
    EntryIsFromSteady(start, events, i);
    NextProbeIsTenSecondsAway(start, events, j, i);
  }

  // ----- STARTUP over whole runs -----

  /** The acknowledgement completes a network-limited round with stable estimates, whose rate is judged. */
  predicate Judges(w: Window, n: nat) {
    && w.startup.active && IsStable(w.bwe) && w.bwe.maxBW != 0.0
    && w.startup.roundAcked + n >= w.startup.roundThreshold && w.startup.roundMaxInFlight >= w.cwnd / 2
  }

  /** OnAck leaves STARTUP, before it may begin again. */
  predicate Leaves(w: Window, n: nat) {
    w.startup.active && !StartupChecked(Released(w, n), n).startup.active
  }

  /** OnAck begins STARTUP again. */
  predicate Restarts(w: Window, n: nat) {
    (!w.startup.active || Leaves(w, n)) && PhaseUpdated(w, n).startup.active
  }

  function JudgedAfter(w: Window, e: Event, rates: seq<real>): seq<real> {
    if !e.Acks? then rates
    else if Restarts(w, e.n) then []
    else if Judges(w, e.n) then rates + [w.bwe.maxBW]
    else rates
  }

  /** The delivery rates of the judged rounds since STARTUP began, oldest first. */
  function Judged(start: int, events: seq<Event>): seq<real> {
    if events == [] then [] else
    var init := events[..|events| - 1];
    JudgedAfter(Run(start, init), events[|events| - 1], Judged(start, init))
  }

  /** How many rates at the end of the list grew by less than a quarter over the one before. */
  function Plateaus(rates: seq<real>): nat {
    if |rates| < 2 || !Plateau(rates[|rates| - 1], rates[|rates| - 2]) then 0
    else Plateaus(rates[..|rates| - 1]) + 1
  }

  lemma {:induction false} PlateausAreInARow(rates: seq<real>, i: nat)
    requires |rates| - Plateaus(rates) <= i < |rates|
    ensures 0 < i && Plateau(rates[i], rates[i - 1])
    decreases |rates|
  {
    hide Plateau;
    if i < |rates| - 1 {
      PlateausAreInARow(rates[..|rates| - 1], i);
    }
  }

  lemma {:induction false} FewerPlateaus(rates: seq<real>)
    ensures rates != [] ==> Plateaus(rates) < |rates|
    decreases |rates|
  {
    hide Plateau;
    if |rates| >= 2 {
      FewerPlateaus(rates[..|rates| - 1]);
    }
  }

  /** While STARTUP lasts its counters stand for the judged rates. */
  ghost predicate StartupTracks(s: Startup, rates: seq<real>) {
    s.active ==>
      s.fullBWCount == Plateaus(rates) && s.lastMaxBW == if rates == [] then 0.0 else rates[|rates| - 1]
  }

  lemma PlateausAppend(rates: seq<real>, r: real)
    ensures Plateaus(rates + [r]) ==
            if rates != [] && Plateau(r, rates[|rates| - 1]) then Plateaus(rates) + 1 else 0
  {
    hide Plateau;
    assert (rates + [r])[..|rates|] == rates;
  }

  lemma AckTracks(w: Window, n: nat, now: int, rates: seq<real>)
    requires StartupTracks(w.startup, rates)
    ensures StartupTracks(AfterAck(w, n, now).startup, JudgedAfter(w, Acks(n, now), rates))
    ensures w.startup.active ==> (Leaves(w, n) <==> Judges(w, n) && Plateaus(rates + [w.bwe.maxBW]) >= 3)
  {
    PlateausAppend(rates, w.bwe.maxBW);
    assert AfterAck(w, n, now).startup == PhaseUpdated(w, n).startup by {
      hide TargetCwnd, Plateau, ProbeStep;
    }
    assert Plateau(w.bwe.maxBW, 0.0) == false;
    hide AfterAck, Plateau, Plateaus, TargetCwnd;
  }

  lemma {:induction false} RunTracksStartup(start: int, events: seq<Event>)
    ensures StartupTracks(Run(start, events).startup, Judged(start, events))
  {
    hide AfterAck, JudgedAfter, Plateaus;
    if events != [] {
      var init, e := events[..|events| - 1], events[|events| - 1];
      RunTracksStartup(start, init);
      JudgedByAcks(Run(start, init), e, Judged(start, init));
      if e.Acks? {
        AckTracks(Run(start, init), e.n, e.at, Judged(start, init));
        assert e == Acks(e.n, e.at);
      }
    } else {
      NothingJudged();
    }
  }

  lemma JudgedByAcks(w: Window, e: Event, rates: seq<real>)
    ensures !e.Acks? ==> JudgedAfter(w, e, rates) == rates
  {
  }

  lemma NothingJudged()
    ensures Plateaus([]) == 0
  {
  }

  lemma PlateauMeans(rate: real, before: real)
    ensures Plateau(rate, before) <==> before > 0.0 && rate < 1.25 * before
  {
    if before > 0.0 {
      assert rate == rate / before * before;
      if rate / before < 1.25 {
        assert (1.25 - rate / before) * before > 0.0;
      } else {
        assert (rate / before - 1.25) * before >= 0.0;
      }
    }
  }

  /** Rate i grew by less than a quarter over the one before. */
  ghost predicate FlatAt(rates: seq<real>, i: nat) {
    0 < i < |rates| && rates[i - 1] > 0.0 && rates[i] < 1.25 * rates[i - 1]
  }

  /** So did each of the last three. */
  ghost predicate ThreeFlat(rates: seq<real>) {
    var n := |rates|;
    n >= 4 && FlatAt(rates, n - 1) && FlatAt(rates, n - 2) && FlatAt(rates, n - 3)
  }

  lemma ThreePlateaus(rates: seq<real>)
    requires rates != []
    ensures Plateaus(rates) >= 3 <==> ThreeFlat(rates)
  {
    hide Plateau, Plateaus;
    var n := |rates|;
    if Plateaus(rates) >= 3 {
      FewerPlateaus(rates);
      PlateausAreInARow(rates, n - 1);
      PlateausAreInARow(rates, n - 2);
      PlateausAreInARow(rates, n - 3);
      PlateauMeans(rates[n - 1], rates[n - 2]);
      PlateauMeans(rates[n - 2], rates[n - 3]);
      PlateauMeans(rates[n - 3], rates[n - 4]);
    }
    if ThreeFlat(rates) {
      var two, one := rates[..n - 1], rates[..n - 2];
      PlateauMeans(rates[n - 1], rates[n - 2]);
      PlateauMeans(rates[n - 2], rates[n - 3]);
      PlateauMeans(rates[n - 3], rates[n - 4]);
      MorePlateaus(rates);
      assert two[..n - 2] == one && two[n - 2] == rates[n - 2] && two[n - 3] == rates[n - 3];
      MorePlateaus(two);
      assert one[n - 3] == rates[n - 3] && one[n - 4] == rates[n - 4];
      MorePlateaus(one);
    }
  }

  lemma MorePlateaus(rates: seq<real>)
    requires |rates| >= 2 && Plateau(rates[|rates| - 1], rates[|rates| - 2])
    ensures Plateaus(rates) == Plateaus(rates[..|rates| - 1]) + 1
  {
    hide Plateau;
  }

  /** In any run STARTUP ends with an acknowledgement if and only if it completes a judged round and the last three
      judged rounds since STARTUP began, this one included, each grew by less than a quarter. */
  lemma StartupEndsAfterThreePlateaus(start: int, events: seq<Event>, n: nat)
    requires Run(start, events).startup.active
    ensures var w := Run(start, events);
            var rates := Judged(start, events) + [w.bwe.maxBW];
            Leaves(w, n) <==> Judges(w, n) && ThreeFlat(rates)
  {
    hide Plateau, Plateaus, Leaves, Judges, ThreeFlat;
    RunTracksStartup(start, events);
    var w := Run(start, events);
    AckTracks(w, n, 0, Judged(start, events));
    ThreePlateaus(Judged(start, events) + [w.bwe.maxBW]);
  }

  datatype Admission = Admitted | Blocked | Closed

  class CongestionControl {
    var cwnd: nat
    var inFlight: nat
    const bwe: BandwidthEstimator
    var notify: nat  // tokens in the wake-up channel, whose capacity is MAX_CWND

    var inStartup: bool
    var fullBWCount: nat
    var lastMaxBW: real
    var roundAcked: nat
    var roundThreshold: nat

    var idleSeen: bool
    var idleStart: Option<int>
    var roundMaxInFlight: nat

    var inProbeRTT: bool
    var probeRTTStart: int
    var probeRTTDrainedAt: Option<int>
    var lastProbeRTTEnd: Option<int>
    var probeRTTNext: int

    ghost predicate Valid()
      reads this, bwe
    {
      bwe.Valid() && Sized(View()) && notify <= MAX_CWND
    }

    ghost function View(): Window
      reads this, bwe
    {
      Window(cwnd, inFlight, bwe.View(),
             Startup(inStartup, fullBWCount, lastMaxBW, roundAcked, roundThreshold, roundMaxInFlight),
             Idle(idleSeen, idleStart),
             Probe(inProbeRTT, probeRTTStart, probeRTTDrainedAt, lastProbeRTTEnd, probeRTTNext))
    }

    constructor (now: int)
      ensures Valid() && fresh(bwe) && View() == NewWindow(now) && notify == STARTUP_CWND
    {
      cwnd, inFlight := STARTUP_CWND, 0;
      bwe := new BandwidthEstimator(now);
      notify := STARTUP_CWND;
      inStartup, fullBWCount, lastMaxBW, roundAcked, roundThreshold := true, 0, 0.0, 0, STARTUP_CWND;
      idleSeen, idleStart, roundMaxInFlight := false, None, 0;
      inProbeRTT, probeRTTStart, probeRTTDrainedAt, lastProbeRTTEnd := false, 0, None, None;
      probeRTTNext := now + PROBE_RTT_INTERVAL;
    }

    /** Consumes tokens until one admits the caller; once the session is closed the select may take that way out
        instead. Where the program would wait, the call reports Blocked and leaves the window as it was. */
    method AcquireSlot(done: bool) returns (r: Admission)
      requires Valid()
      modifies this
      ensures Valid() && notify <= old(notify)
      ensures r.Admitted? ==> CanAcquire(old(View())) && View() == Acquired(old(View())) && notify == old(notify) - 1
      ensures r.Blocked? ==> !done && notify == 0 && View() == old(View()) && (old(notify) == 0 || !CanAcquire(View()))
      ensures r.Closed? ==> done && View() == old(View())
    {
      while notify > 0
        invariant Valid() && View() == old(View())
        invariant notify <= old(notify) && (notify == old(notify) || !CanAcquire(View()))
      {
        if done {
          if * {
            return Closed;
          }
        }
        notify := notify - 1;
        if inFlight < cwnd {
          inFlight := inFlight + 1;
          if inFlight > roundMaxInFlight {
            roundMaxInFlight := inFlight;
          }
          return Admitted;
        }
      }
      r := if done then Closed else Blocked;
    }

    method OnAck(n: nat, now: int)
      requires Valid()
      modifies this
      ensures Valid() && View() == AfterAck(old(View()), n, now)
      ensures notify == Min(MAX_CWND, old(notify) + Available(View()))
    {
      AfterAckSized(View(), n, now);
      UpdatePhase(n);
      Resize(now);
      var available := cwnd - inFlight;
      if available < 0 {
        available := 0;
      }
      WakeSenders(available);
    }

    method UpdatePhase(n: nat)
      requires bwe.Valid()
      modifies this
      ensures View() == PhaseUpdated(old(View()), n) && notify == old(notify)
    {
      var wasFullyUtilized := inFlight >= cwnd * 3 / 4;
      inFlight := if inFlight < n then 0 else inFlight - n;
      if inStartup {
        CheckStartupExit(n);
      }
      if !inStartup && idleSeen && wasFullyUtilized {
        EnterStartup();
      }
    }

    method Resize(now: int)
      modifies this
      ensures View() == Resized(old(View()), now) && notify == old(notify)
    {
      CheckProbeRTT(now);
      TrackIdle(now);
      RecalcCwnd();
    }

    method TrackIdle(now: int)
      modifies this
      ensures View() == IdleTracked(old(View()), now) && notify == old(notify)
    {
      if inFlight < cwnd / 4 {
        if idleStart.None? {
          idleStart := Some(now);
        } else if now - idleStart.value >= IDLE_AFTER {
          idleSeen := true;
        }
      } else {
        idleStart := None;
      }
    }

    /** Pushes tokens without blocking: a push into a full channel is dropped. */
    method WakeSenders(available: nat)
      requires notify <= MAX_CWND
      modifies this`notify
      ensures notify == Min(MAX_CWND, old(notify) + available)
    {
      for i := 0 to available
        invariant notify == Min(MAX_CWND, old(notify) + i)
      {
        if notify < MAX_CWND {
          notify := notify + 1;
        }
      }
    }

    method CheckStartupExit(acked: nat)
      requires bwe.Valid() && inStartup
      modifies this
      ensures View() == StartupChecked(old(View()), acked) && notify == old(notify)
    {
      if |bwe.samples| < MIN_STABLE_SAMPLES {
        return;
      }
      roundAcked := roundAcked + acked;
      if roundAcked < roundThreshold {
        return;
      }
      if roundMaxInFlight < cwnd / 2 {
        roundAcked := 0;
        roundMaxInFlight := 0;
        roundThreshold := cwnd;
        return;
      }
      roundAcked := 0;
      roundMaxInFlight := 0;
      var maxBW := bwe.maxBW;
      if maxBW == 0.0 {
        return;
      }
      if Plateau(maxBW, lastMaxBW) {
        fullBWCount := fullBWCount + 1;
        if fullBWCount >= STARTUP_FULL_BW_COUNT {
          inStartup := false;
        }
      } else {
        fullBWCount := 0;
      }
      lastMaxBW := maxBW;
      roundThreshold := cwnd;
    }

    method EnterStartup()
      requires !inStartup && idleSeen
      modifies this
      ensures View() == Reentered(old(View()), true) && notify == old(notify)
    {
      hide BandwidthEstimator.View;
      ResetRound();
      idleSeen := false;
      idleStart := None;
    }

    /** Forgets every STARTUP round seen so far. */
    method ResetRound()
      modifies this`inStartup, this`fullBWCount, this`lastMaxBW, this`roundAcked,
               this`roundThreshold, this`roundMaxInFlight
      ensures View() == old(View()).(startup := Startup(true, 0, 0.0, 0, cwnd, 0))
    {
      hide BandwidthEstimator.View;
      inStartup, fullBWCount, lastMaxBW := true, 0, 0.0;
      roundAcked, roundThreshold, roundMaxInFlight := 0, cwnd, 0;
    }

    method CheckProbeRTT(now: int)
      modifies this
      ensures View() == ProbeChecked(old(View()), now) && notify == old(notify)
    {
      if inProbeRTT {
        if probeRTTDrainedAt.None? && inFlight <= PROBE_RTT_CWND {
          probeRTTDrainedAt := Some(now);
        }
        var drained := probeRTTDrainedAt.Some? && now - probeRTTDrainedAt.value >= PROBE_RTT_DURATION;
        var timedOut := now - probeRTTStart >= PROBE_RTT_MAX_WAIT;
        if drained || timedOut {
          inProbeRTT := false;
          probeRTTDrainedAt := None;
          lastProbeRTTEnd := Some(now);
          probeRTTNext := now + PROBE_RTT_INTERVAL;
        }
        return;
      }
      if !inStartup && now > probeRTTNext {
        inProbeRTT := true;
        probeRTTStart := now;
        probeRTTDrainedAt := None;
      }
    }

    method RecalcCwnd()
      modifies this
      ensures View() == Recalculated(old(View())) && notify == old(notify)
    {
      if inProbeRTT {
        cwnd := PROBE_RTT_CWND;
        return;
      }
      var target := bwe.CwndFromBDP(PACKET_MSS, CWND_GAIN);
      if target <= 0 {
        return;
      }
      if inStartup {
        if target > cwnd {
          cwnd := target;
        }
      } else {
        cwnd := target;
      }
      if cwnd < MIN_CWND {
        cwnd := MIN_CWND;
      }
      if cwnd > MAX_CWND {
        cwnd := MAX_CWND;
      }
    }
  }
}
