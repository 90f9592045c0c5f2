/** Failure detection and transport rebuild of the TUN engine (daemon/internal/tun/engine.go). */
module EngineRecovery {
  import opened Bytes
  import opened ServerRings

  const SECOND := 1_000_000_000
  const STREAM_FAILURE_THRESHOLD := 3
  const RECONNECT_DELAY := 3 * SECOND
  const MAX_RECONNECT_DELAY := 30 * SECOND
  const FIRST_REFRESH_AT := 2
  const REFRESH_EVERY := 5
  const OFFLINE_REFRESH_EVERY := 1
  const KILL_SWITCH_THRESHOLD := 3
  const MAX_FAILED_CHECKS := 12

  datatype Status = Inactive | Active | Reconnecting
  datatype Mode = Tls | Udp

  /** Why a stream could not be opened: the destination refused it, the link is down, or anything else. */
  datatype StreamError = ConnectRejected | NoRoute | Broken

  /** How one transport dial ends. */
  datatype Outcome = Up(mode: Mode) | Down(err: DialError)

  /** `sweeps` counts the calls of closeAllConns. */
  datatype Engine = Engine(
    status: Status, transport: Option<Mode>, ring: Option<Ring>, serverAddr: Address,
    failures: nat, streakSawUnreach: bool, rebuildSawUnreach: bool, sweeps: nat)

  ghost predicate Sound(e: Engine) {
    e.ring.Some? ==> e.ring.value.Valid()
  }

  // ----- the detectors' counters -----

  predicate Counts(e: Engine, err: StreamError) {
    !err.ConnectRejected? && e.status == Active
  }

  function NotedFailure(e: Engine, err: StreamError): Engine {
    if !Counts(e, err) then e
    else e.(failures := e.failures + 1,
            streakSawUnreach := if e.failures == 0 then err.NoRoute? else err.NoRoute? || e.streakSawUnreach)
  }

  function StreamOpened(e: Engine): Engine {
    e.(failures := 0)
  }

  predicate GateClosed(e: Engine) {
    e.failures >= STREAM_FAILURE_THRESHOLD
  }

  function EnteredReconnecting(e: Engine, sweep: bool): Engine {
    if e.status != Active then e
    else e.(status := Reconnecting, sweeps := if sweep then e.sweeps + 1 else e.sweeps)
  }

  function ConnectedAgain(e: Engine): Engine {
    if e.status != Reconnecting then e else e.(status := Active, failures := 0)
  }

  // ----- one reconnect attempt -----

  function Target(e: Engine): Address
    requires e.ring.Some? ==> e.ring.value.cur < |e.ring.value.addrs|
  {
    if e.ring.Some? then e.ring.value.Current() else e.serverAddr
  }

  function DialledOnce(e: Engine, o: Outcome): Engine
    requires e.ring.Some? ==> e.ring.value.cur < |e.ring.value.addrs|
  {
    match o
    case Up(mode) =>
      e.(transport := Some(mode), serverAddr := Target(e), failures := 0,
         ring := if e.ring.Some? then Some(e.ring.value.Succeeded()) else None)
    case Down(err) =>
      e.(ring := if e.ring.Some? then Some(e.ring.value.Noted(Target(e), err)) else None)
  }

  predicate KeyRejectedEverywhere(e: Engine) {
    e.ring.None? || e.ring.value.AllRejected()
  }

  datatype Verdict = Restored | GaveUp | Stopped | Retry

  function VerdictOf(e: Engine, o: Outcome): Verdict
    requires e.ring.Some? ==> e.ring.value.cur < |e.ring.value.addrs|
  {
    if o.Up? then Restored
    else if o.err.InvalidKey? && KeyRejectedEverywhere(DialledOnce(e, o)) then GaveUp
    else Retry
  }

  function Attempted(e: Engine, o: Outcome): Engine
    requires e.ring.Some? ==> e.ring.value.cur < |e.ring.value.addrs|
  {
    var dialled := DialledOnce(e, o);
    if o == Down(Unreachable) then dialled.(rebuildSawUnreach := true) else dialled
  }

  lemma AttemptedSound(e: Engine, o: Outcome)
    requires Sound(e)
    ensures Sound(Attempted(e, o)) && Sound(DialledOnce(e, o))
  {
  }

  // ----- D3 -----

  predicate KeepsConns(e: Engine) {
    e.transport == Some(Tls)
  }

  function Tripped(e: Engine): Engine {
    EnteredReconnecting(e.(failures := 0, rebuildSawUnreach := e.streakSawUnreach, streakSawUnreach := false),
                        !KeepsConns(e))
  }

  function Recovered(e: Engine, keepConns: bool): Engine {
    ConnectedAgain(if keepConns && e.rebuildSawUnreach then e.(sweeps := e.sweeps + 1) else e)
  }

  // ----- the session as a machine -----

  /** The health loop watches, rebuilds the transport after D1 or D3, or has stopped the engine. */
  datatype Phase = Watching | Rebuilding(d3: bool, keepConns: bool) | Halted

  /** `misses` is the health loop's count of failed checks. */
  datatype Machine = Machine(engine: Engine, phase: Phase, misses: nat)

  datatype Step =
    | StreamFailed(err: StreamError)   // OpenStream failed
    | StreamOk                         // OpenStream succeeded
    | TripD3                           // a health tick finds the counter at the threshold
    | FallBackToTls                    // D3 on an Auto transport over UDP falls back in place
    | Attempt(outcome: Outcome)        // one round of reconnectTransport
    | TransportLost                    // D1
    | BridgeLost                       // D4
    | CheckFailed                      // a health check of D2 fails
    | CheckPassed                      // a health check of D2 passes
    | Upgraded                         // the Auto transport returns from TLS to UDP
    | StopRequested

  predicate Enabled(m: Machine, s: Step) {
    match s
    case StreamFailed(_) => !m.phase.Halted?
    case StreamOk => !m.phase.Halted?
    case TripD3 => m.phase.Watching? && GateClosed(m.engine)
    case FallBackToTls => m.phase.Rebuilding? && m.phase.d3 && m.engine.transport == Some(Udp)
    case Attempt(_) => m.phase.Rebuilding?
    case TransportLost => m.phase.Watching?
    case BridgeLost => m.phase.Watching?
    case CheckFailed => m.phase.Watching?
    case CheckPassed => m.phase.Watching?
    case Upgraded => m.phase.Watching? && m.engine.transport == Some(Tls)
    case StopRequested => !m.phase.Halted?
  }

  /** D2: the third failure in a row engages the kill switch, the twelfth stops the engine. */
  function Checked(m: Machine): Machine {
    var e := if m.misses + 1 == KILL_SWITCH_THRESHOLD then EnteredReconnecting(m.engine, true) else m.engine;
    if m.misses + 1 >= MAX_FAILED_CHECKS then Machine(e.(status := Inactive), Halted, m.misses + 1)
    else Machine(e, m.phase, m.misses + 1)
  }

  function Next(m: Machine, s: Step): Machine
    requires Enabled(m, s) && (m.engine.ring.Some? ==> m.engine.ring.value.cur < |m.engine.ring.value.addrs|)
  {
    var e := m.engine;
    match s
    case StreamFailed(err) => m.(engine := NotedFailure(e, err))
    case StreamOk => m.(engine := StreamOpened(e))
    case TripD3 => Machine(Tripped(e), Rebuilding(true, KeepsConns(e)), m.misses)
    case FallBackToTls => Machine(Recovered(e.(transport := Some(Tls)), m.phase.keepConns), Watching, 0)
    case Attempt(o) =>
      var down := e.(transport := None);
      (match VerdictOf(down, o)
       case Restored => Machine(Recovered(Attempted(down, o), m.phase.keepConns), Watching, 0)
       case GaveUp => Machine(Attempted(down, o).(status := Inactive), Halted, m.misses)
       case _ => m.(engine := Attempted(down, o)))
    case TransportLost => Machine(EnteredReconnecting(e, true), Rebuilding(false, false), m.misses)
    case BridgeLost => Machine(e.(status := Inactive), Halted, m.misses)
    case CheckFailed => Checked(m)
    case CheckPassed => if m.misses > 0 then Machine(ConnectedAgain(e), m.phase, 0) else m
    case Upgraded => m.(engine := e.(transport := Some(Udp), failures := 0))
    case StopRequested => Machine(e.(status := Inactive), Halted, m.misses)
  }

  ghost predicate Started(m: Machine) {
    && Sound(m.engine) && m.phase.Watching? && m.engine.status == Active
    && m.engine.failures == 0 && !m.engine.rebuildSawUnreach && m.misses == 0
  }

  ghost predicate IsRun(m: Machine, steps: seq<Step>)
    decreases |steps|, 0
  {
    && Sound(m.engine)
    && (steps == [] ||
        var init := steps[..|steps| - 1];
        IsRun(m, init) && Sound(Run(m, init).engine) && Enabled(Run(m, init), steps[|steps| - 1]))
  }

  ghost function Run(m: Machine, steps: seq<Step>): Machine
    requires IsRun(m, steps)
    decreases |steps|, 1
  {
    if steps == [] then m else Next(Run(m, steps[..|steps| - 1]), steps[|steps| - 1])
  }

  // ----- histories, read off the steps alone -----

  /** The step ends a failure streak: a stream opened, D3 tripped, a transport came up, or D2 recovered. */
  ghost predicate EndsStreak(m: Machine, s: Step) {
    match s
    case StreamOk => true
    case TripD3 => true
    case FallBackToTls => true
    case Attempt(o) => o.Up?
    case CheckPassed => m.misses > 0 && m.engine.status == Reconnecting
    case Upgraded => true
    case _ => false
  }

  /** The counted stream failures since the last step that ended a streak, oldest first. */
  ghost function Streak(m: Machine, steps: seq<Step>): seq<StreamError>
    requires IsRun(m, steps)
  {
    if steps == [] then [] else
    var init := steps[..|steps| - 1];
    StreakAfter(Run(m, init), steps[|steps| - 1], Streak(m, init))
  }

  ghost function StreakAfter(before: Machine, s: Step, streak: seq<StreamError>): seq<StreamError> {
    if EndsStreak(before, s) then []
    else if s.StreamFailed? && s.err != ConnectRejected && before.engine.status == Active then streak + [s.err]
    else streak
  }

  /** The streak that made D3 trip last. */
  ghost function TripStreak(m: Machine, steps: seq<Step>): seq<StreamError>
    requires IsRun(m, steps)
  {
    if steps == [] then [] else
    var init := steps[..|steps| - 1];
    if steps[|steps| - 1].TripD3? then Streak(m, init) else TripStreak(m, init)
  }

  /** The transport D3 found when it tripped last. */
  ghost function TripTransport(m: Machine, steps: seq<Step>): Option<Mode>
    requires IsRun(m, steps)
  {
    if steps == [] then None else
    var init := steps[..|steps| - 1];
    if steps[|steps| - 1].TripD3? then Run(m, init).engine.transport else TripTransport(m, init)
  }

  /** The failed dials since D3 tripped last. */
  ghost function RebuildErrors(m: Machine, steps: seq<Step>): seq<DialError>
    requires IsRun(m, steps)
  {
    if steps == [] then [] else ErrorsAfter(steps[|steps| - 1], RebuildErrors(m, steps[..|steps| - 1]))
  }

  ghost function ErrorsAfter(s: Step, errors: seq<DialError>): seq<DialError> {
    if s.TripD3? then []
    else if s.Attempt? && s.outcome.Down? then errors + [s.outcome.err]
    else errors
  }

  /** The health checks that failed since the last one that passed, or since the last rebuild. */
  ghost function FailedChecks(m: Machine, steps: seq<Step>): nat
    requires IsRun(m, steps)
  {
    if steps == [] then 0 else
    var init := steps[..|steps| - 1];
    ChecksAfter(Run(m, init), steps[|steps| - 1], FailedChecks(m, init))
  }

  ghost function ChecksAfter(before: Machine, s: Step, failed: nat): nat {
    if s.CheckFailed? then failed + 1
    else if s.CheckPassed? || Recovers(before, s) then 0
    else failed
  }

  /** The engine's counters say exactly what the histories say. */
  ghost predicate Exact(now: Machine, streak: seq<StreamError>, trip: seq<StreamError>, errors: seq<DialError>) {
    && Sound(now.engine)
    && now.engine.failures == |streak|
    && (streak != [] ==> (now.engine.streakSawUnreach <==> NoRoute in streak))
    && (now.phase.Rebuilding? ==> now.engine.status == Reconnecting)
    && (now.phase.Watching? ==> now.engine.status != Inactive)
    && (now.phase.Rebuilding? && now.phase.d3 ==>
          (now.engine.rebuildSawUnreach <==> NoRoute in trip || Unreachable in errors))
  }

  lemma FailureExact(now: Machine, err: StreamError, streak: seq<StreamError>, trip: seq<StreamError>,
                     errors: seq<DialError>)
    requires Exact(now, streak, trip, errors) && !now.phase.Halted?
    ensures Exact(now.(engine := NotedFailure(now.engine, err)), StreakAfter(now, StreamFailed(err), streak), trip,
                  errors)
  {
    assert forall x :: x in streak + [err] <==> x in streak || x == err;
  }

  lemma AttemptExact(now: Machine, o: Outcome, streak: seq<StreamError>, trip: seq<StreamError>, errors: seq<DialError>)
    requires Exact(now, streak, trip, errors) && now.phase.Rebuilding?
    ensures now.engine.ring.Some? ==> now.engine.ring.value.cur < |now.engine.ring.value.addrs|
    ensures Exact(Next(now, Attempt(o)), StreakAfter(now, Attempt(o), streak), trip, ErrorsAfter(Attempt(o), errors))
  {
    AttemptedSound(now.engine.(transport := None), o);
    hide Sound, Ring.Noted, Ring.AllRejected;
    if o.Down? {
      assert forall x :: x in errors + [o.err] <==> x in errors || x == o.err;
    }
  }

  lemma StepExact(now: Machine, s: Step, streak: seq<StreamError>, trip: seq<StreamError>, errors: seq<DialError>)
    requires Exact(now, streak, trip, errors) && Enabled(now, s)
    ensures Exact(Next(now, s), StreakAfter(now, s, streak), if s.TripD3? then streak else trip, ErrorsAfter(s, errors))
  {
    match s
    case Attempt(o) => AttemptExact(now, o, streak, trip, errors);
    case StreamFailed(err) => FailureExact(now, err, streak, trip, errors);
    case _ =>
  }

  lemma StepCounts(now: Machine, s: Step)
    requires Sound(now.engine) && Enabled(now, s)
    ensures Next(now, s).misses == ChecksAfter(now, s, now.misses)
  {
    hide Ring.Noted, Ring.AllRejected;
  }

  /** Over any run the health loop's counter is the number of checks that failed in a row. */
  lemma {:induction false} RunCountsChecks(m: Machine, steps: seq<Step>)
    requires Started(m) && IsRun(m, steps)
    ensures Run(m, steps).misses == FailedChecks(m, steps)
  {
    if steps != [] {
      hide Next, ChecksAfter;
      var init := steps[..|steps| - 1];
      RunCountsChecks(m, init);
      StepCounts(Run(m, init), steps[|steps| - 1]);
    }
  }

  lemma {:induction false} RunExact(m: Machine, steps: seq<Step>)
    requires Started(m) && IsRun(m, steps)
    ensures Exact(Run(m, steps), Streak(m, steps), TripStreak(m, steps), RebuildErrors(m, steps))
  {
    if steps != [] {
      var init := steps[..|steps| - 1];
      hide Next, StreakAfter, ErrorsAfter, Exact;
      RunExact(m, init);
      StepExact(Run(m, init), steps[|steps| - 1], Streak(m, init), TripStreak(m, init), RebuildErrors(m, init));
    } else {
      assert Run(m, steps) == m;
    }
  }

  /** D3 trips only after three counted failures in a row since the last success, recovery or transport swap. */
  lemma D3TripsOnlyForCause(m: Machine, steps: seq<Step>)
    requires Started(m) && IsRun(m, steps)
    ensures Enabled(Run(m, steps), TripD3) <==> Run(m, steps).phase.Watching? && |Streak(m, steps)| >= 3
  {
    RunExact(m, steps);
  }

  /** The step brings the transport back during a rebuild. */
  ghost predicate Recovers(m: Machine, s: Step) {
    m.phase.Rebuilding? && (s.FallBackToTls? || (s.Attempt? && s.outcome.Up?))
  }

  lemma StepKeeps(m: Machine, s: Step)
    requires Sound(m.engine) && Enabled(m, s)
    ensures var after := Next(m, s);
            after.phase.Rebuilding? ==>
              if s.TripD3? then after.phase == Rebuilding(true, m.engine.transport == Some(Tls))
              else after.phase == m.phase || (s.TransportLost? && after.phase == Rebuilding(false, false))
  {
    hide Ring.Noted, Ring.AllRejected;
  }

  /** While D3 rebuilds, connections are kept exactly if the transport was TLS when it tripped. */
  lemma {:induction false} KeepsExactly(m: Machine, steps: seq<Step>)
    requires Started(m) && IsRun(m, steps)
    ensures Run(m, steps).phase.Rebuilding? && Run(m, steps).phase.d3 ==>
              (Run(m, steps).phase.keepConns <==> TripTransport(m, steps) == Some(Tls))
  {
    hide Next, Enabled;
    if steps != [] {
      var init, s := steps[..|steps| - 1], steps[|steps| - 1];
      KeepsExactly(m, init);
      StepKeeps(Run(m, init), s);
      if !s.TripD3? {
        RebuildStarts(Run(m, init), s);
      }
    }
  }

  lemma RebuildStarts(m: Machine, s: Step)
    requires Sound(m.engine) && Enabled(m, s) && !s.TripD3?
    ensures Next(m, s).phase.Rebuilding? && Next(m, s).phase.d3 ==> m.phase.Rebuilding? && m.phase.d3
  {
    hide Ring.Noted, Ring.AllRejected;
  }

  /** What each event does to the live connections: D3 closes them when it trips on an active engine unless the
      transport is TLS; D1 and the third failed check of D2 close those of an active engine; a rebuild that kept
      them closes them at its end if the link was seen down. Nothing else does. */
  lemma StepOnConnections(m: Machine, s: Step)
    requires Sound(m.engine) && Enabled(m, s)
    ensures Next(m, s).engine.sweeps == m.engine.sweeps +
            match s
            case TripD3 => if m.engine.status == Active && m.engine.transport != Some(Tls) then 1 else 0
            case TransportLost => if m.engine.status == Active then 1 else 0
            case CheckFailed => if m.engine.status == Active && m.misses == 2 then 1 else 0
            case FallBackToTls => if m.phase.keepConns && m.engine.rebuildSawUnreach then 1 else 0
            case Attempt(o) => if o.Up? && m.phase.keepConns && m.engine.rebuildSawUnreach then 1 else 0
            case _ => 0
  {
    hide Ring.Noted, Ring.AllRejected;
  }

  /** What each event does to the status: whatever engages the kill switch flips an active engine only, and whatever
      ends an outage a reconnecting one only. */
  lemma StepOnStatus(m: Machine, s: Step)
    requires Sound(m.engine) && Enabled(m, s)
    ensures var was, now := m.engine.status, Next(m, s).engine.status;
            match s
            case TripD3 => now == if was == Active then Reconnecting else was
            case TransportLost => now == if was == Active then Reconnecting else was
            case FallBackToTls => now == if was == Reconnecting then Active else was
            case BridgeLost => now == Inactive
            case StopRequested => now == Inactive
            case CheckPassed => now == if was == Reconnecting && m.misses > 0 then Active else was
            case CheckFailed =>
              now == if m.misses >= 11 then Inactive else if was == Active && m.misses == 2 then Reconnecting else was
            case Attempt(o) =>
              if o.Up? then now == if was == Reconnecting then Active else was
              else now == was || Next(m, s).phase.Halted?
            case _ => now == was
  {
    hide Ring.Noted, Ring.AllRejected;
  }

  /** When D3's rebuild succeeds the engine is active with a clean counter, and the connections kept across a
      rebuild that started on TLS are closed if and only if the link was seen down, either by a stream failure
      of the streak that tripped D3 or by a dial of the rebuild. A rebuild that started on anything else has closed
      them before. */
  lemma KeptConnectionsAreSweptExactly(m: Machine, steps: seq<Step>, s: Step)
    requires Started(m) && IsRun(m, steps) && Enabled(Run(m, steps), s)
    requires Recovers(Run(m, steps), s) && Run(m, steps).phase.d3
    ensures Sound(Run(m, steps).engine)
    ensures var before, after := Run(m, steps), Next(Run(m, steps), s);
            && after.phase.Watching? && after.engine.status == Active && after.engine.failures == 0
            && after.engine.sweeps == before.engine.sweeps +
               if TripTransport(m, steps) == Some(Tls) &&
                  (NoRoute in TripStreak(m, steps) || Unreachable in RebuildErrors(m, steps)) then 1 else 0
  {
    RunExact(m, steps);
    KeepsExactly(m, steps);
    StepOnConnections(Run(m, steps), s);
    RecoveryEnds(Run(m, steps), s);
  }

  lemma RecoveryEnds(m: Machine, s: Step)
    requires Sound(m.engine) && Enabled(m, s) && Recovers(m, s) && m.engine.status == Reconnecting
    ensures var after := Next(m, s);
            after.phase.Watching? && after.engine.status == Active && after.engine.failures == 0
  {
    hide Ring.Noted, Ring.AllRejected;
  }

  /** The engine stops for good if and only if it is asked to, the TUN bridge is lost, the twelfth health check in a
      row fails, or the dialled server rejected the key and every server of the ring has done so since the last
      success. */
  lemma GivesUpOnlyForCause(m: Machine, steps: seq<Step>, s: Step)
    requires Started(m) && IsRun(m, steps) && Enabled(Run(m, steps), s) && !Run(m, steps).phase.Halted?
    ensures Sound(Run(m, steps).engine)
    ensures Next(Run(m, steps), s).phase.Halted? <==>
              || s.StopRequested?
              || s.BridgeLost?
              || (s.CheckFailed? && FailedChecks(m, steps) >= 11)
              || (s == Attempt(Down(InvalidKey)) && EveryoneRejected(Next(Run(m, steps), s).engine.ring))
  {
    RunExact(m, steps);
    RunCountsChecks(m, steps);
    HaltsOnlyForCause(Run(m, steps), s);
  }

  /** A single server has spoken for all; of a ring every server must have rejected the key. */
  ghost predicate EveryoneRejected(ring: Option<Ring>) {
    ring.Some? ==> forall i :: 0 <= i < |ring.value.addrs| ==> ring.value.addrs[i] in ring.value.rejected
  }

  lemma HaltsOnlyForCause(m: Machine, s: Step)
    requires Sound(m.engine) && Enabled(m, s) && !m.phase.Halted?
    ensures Next(m, s).phase.Halted? <==>
              || s.StopRequested?
              || s.BridgeLost?
              || (s.CheckFailed? && m.misses >= 11)
              || (s == Attempt(Down(InvalidKey)) && EveryoneRejected(Next(m, s).engine.ring))
  {
  }

  /** The dials of a run as the ring saw them. */
  ghost function DialEvents(m: Machine, steps: seq<Step>): seq<Event>
    requires Started(m) && IsRun(m, steps)
  {
    if steps == [] then [] else
    var init, s := steps[..|steps| - 1], steps[|steps| - 1];
    if !s.Attempt? then DialEvents(m, init)
    else if s.outcome.Up? then DialEvents(m, init) + [Success]
    else DialEvents(m, init) + [Event.Failed(Target(Run(m, init).engine), s.outcome.err)]
  }

  /** Only dials touch the ring. */
  lemma StepOnRing(m: Machine, s: Step)
    requires Sound(m.engine) && Enabled(m, s) && m.engine.ring.Some?
    ensures Next(m, s).engine.ring ==
            if !s.Attempt? then m.engine.ring
            else if s.outcome.Up? then Some(m.engine.ring.value.Succeeded())
            else Some(m.engine.ring.value.Noted(Target(m.engine), s.outcome.err))
  {
    hide Ring.Noted, Ring.AllRejected;
  }

  lemma {:induction false} RingFollowsDials(m: Machine, steps: seq<Step>)
    requires Started(m) && IsRun(m, steps) && m.engine.ring.Some?
    ensures Run(m, steps).engine.ring == Some(ServerRings.Run(m.engine.ring.value, DialEvents(m, steps)))
  {
    hide Next, Ring.Noted, Ring.AllRejected, Enabled;
    if steps != [] {
      var init, s := steps[..|steps| - 1], steps[|steps| - 1];
      RingFollowsDials(m, init);
      StepOnRing(Run(m, init), s);
      if s.Attempt? {
        var before, all := DialEvents(m, init), DialEvents(m, steps);
        assert all[..|all| - 1] == before;
      }
    }
  }

  /** The server answered "invalid key" after the last success. */
  ghost predicate HasRejected(events: seq<Event>, addr: Address) {
    exists k: nat :: RejectsSince(events, k, addr)
  }

  /** Over any run that starts with no rejection on record: an "invalid key" answer makes reconnecting give up if and
      only if every server of the ring, this one included, has given that answer after the last successful connect. */
  lemma GaveUpMeansEveryServerRejected(m: Machine, steps: seq<Step>)
    requires Started(m) && m.engine.ring.Some? && m.engine.ring.value.rejected == {}
    requires IsRun(m, steps) && steps != [] && steps[|steps| - 1] == Attempt(Down(InvalidKey))
    ensures var addrs := m.engine.ring.value.addrs;
            Run(m, steps).phase.Halted? <==>
              forall i :: 0 <= i < |addrs| ==> HasRejected(DialEvents(m, steps), addrs[i])
  {
    hide Next, Exact, Ring.Noted, Ring.AllRejected;
    var ring := m.engine.ring.value;
    var init := steps[..|steps| - 1];
    HaltsOnlyForCause(Run(m, init), steps[|steps| - 1]);
    RingFollowsDials(m, steps);
    var after := Run(m, steps).engine.ring.value;
    assert after.addrs == ring.addrs && Run(m, steps) == Next(Run(m, init), steps[|steps| - 1]);
    assert Run(m, steps).phase.Halted? <==> forall i :: 0 <= i < |ring.addrs| ==> ring.addrs[i] in after.rejected;
    forall i | 0 <= i < |ring.addrs|
      ensures ring.addrs[i] in after.rejected <==> HasRejected(DialEvents(m, steps), ring.addrs[i])
    {
      RejectedSinceLastSuccess(ring, DialEvents(m, steps), ring.addrs[i]);
    }
  }

  // ----- reconnectTransport -----

  /** A round of the retry loop: stop was requested before it, or a dial ends somehow; should a route refresh
      run first, `offline` says whether the helper found the system offline. */
  datatype Round = StopSignal | Try(outcome: Outcome, offline: bool)

  function Rebuilt(e: Engine, rounds: seq<Round>): (r: (Engine, Verdict))
    requires e.ring.Some? ==> e.ring.value.Valid()
    decreases |rounds|
  {
    if rounds == [] then (e, Retry) else
    match rounds[0]
    case StopSignal => (e, Stopped)
    case Try(o, _) =>
      AttemptedSound(e, o);
      if VerdictOf(e, o) == Retry then Rebuilt(Attempted(e, o), rounds[1..]) else (Attempted(e, o), VerdictOf(e, o))
  }

  /** How many of the rounds dial. */
  function Dials(e: Engine, rounds: seq<Round>): (n: nat)
    requires e.ring.Some? ==> e.ring.value.Valid()
    ensures n <= |rounds|
    decreases |rounds|
  {
    if rounds == [] || rounds[0].StopSignal? then 0 else
    AttemptedSound(e, rounds[0].outcome);
    if VerdictOf(e, rounds[0].outcome) == Retry then 1 + Dials(Attempted(e, rounds[0].outcome), rounds[1..]) else 1
  }

  /** The servers the rounds dial, in order. */
  function Dialled(e: Engine, rounds: seq<Round>): (s: seq<Address>)
    requires e.ring.Some? ==> e.ring.value.Valid()
    ensures |s| == Dials(e, rounds)
    decreases |rounds|
  {
    if rounds == [] || rounds[0].StopSignal? then [] else
    AttemptedSound(e, rounds[0].outcome);
    if VerdictOf(e, rounds[0].outcome) != Retry then [Target(e)]
    else [Target(e)] + Dialled(Attempted(e, rounds[0].outcome), rounds[1..])
  }

  /** One round of the loop, and its end. */
  lemma LoopStep(e: Engine, rounds: seq<Round>, i: nat)
    requires Sound(e) && i < |rounds|
    ensures rounds[i].StopSignal? ==>
              Rebuilt(e, rounds[i..]) == (e, Stopped) && Dials(e, rounds[i..]) == 0 && Dialled(e, rounds[i..]) == []
    ensures rounds[i].Try? ==>
              var o := rounds[i].outcome;
              var after, v, rest := Attempted(e, o), VerdictOf(e, o), rounds[i + 1..];
              && Sound(after)
              && Rebuilt(e, rounds[i..]) == (if v == Retry then Rebuilt(after, rest) else (after, v))
              && Dials(e, rounds[i..]) == (if v == Retry then 1 + Dials(after, rest) else 1)
              && Dialled(e, rounds[i..]) == [Target(e)] + (if v == Retry then Dialled(after, rest) else [])
  {
    hide Target, Ring.Noted, Attempted, VerdictOf;
    assert rounds[i..][0] == rounds[i] && rounds[i..][1..] == rounds[i + 1..];
    if rounds[i].Try? {
      AttemptedSound(e, rounds[i].outcome);
    }
  }

  lemma LoopEnds(e: Engine, rounds: seq<Round>)
    requires Sound(e)
    ensures rounds[0..] == rounds && rounds[..|rounds|] == rounds
    ensures Rebuilt(e, rounds[|rounds|..]) == (e, Retry)
    ensures Dials(e, rounds[|rounds|..]) == 0 && Dialled(e, rounds[|rounds|..]) == []
  {
  }

  // ----- when routes are refreshed -----

  predicate IsUnreachable(r: Round) {
    r.Try? && r.outcome == Down(Unreachable)
  }

  /** The unreachable dials at the end of the rounds. */
  function Unreached(rounds: seq<Round>): nat {
    if rounds == [] || !IsUnreachable(rounds[|rounds| - 1]) then 0 else Unreached(rounds[..|rounds| - 1]) + 1
  }

  /** The length of the unreachable streak at which routes are refreshed next. */
  function RefreshAt(rounds: seq<Round>): nat
    decreases |rounds|, 0
  {
    if rounds == [] || !IsUnreachable(rounds[|rounds| - 1]) then FIRST_REFRESH_AT else
    AfterRefresh(rounds[..|rounds| - 1], rounds[|rounds| - 1].offline)
  }

  function AfterRefresh(rounds: seq<Round>, offline: bool): nat
    decreases |rounds|, 2
  {
    if Refreshes(rounds) then Unreached(rounds) + (if offline then OFFLINE_REFRESH_EVERY else REFRESH_EVERY)
    else RefreshAt(rounds)
  }

  /** The round that follows these begins with a route refresh. */
  predicate Refreshes(rounds: seq<Round>)
    decreases |rounds|, 1
  {
    Unreached(rounds) >= RefreshAt(rounds)
  }

  /** The streak lengths at which the rounds refreshed routes, in order. */
  function RefreshesIn(rounds: seq<Round>): seq<nat> {
    if rounds == [] then [] else
    var init := rounds[..|rounds| - 1];
    RefreshesIn(init) + if Refreshes(init) then [Unreached(init)] else []
  }

  lemma RefreshStart(rounds: seq<Round>)
    ensures Unreached(rounds[..0]) == 0 && RefreshAt(rounds[..0]) == FIRST_REFRESH_AT && RefreshesIn(rounds[..0]) == []
  {
  }

  /** One round of the loop. */
  lemma RefreshStep(rounds: seq<Round>, i: nat)
    requires i < |rounds| && rounds[i].Try?
    ensures var before, after := rounds[..i], rounds[..i + 1];
            var due := Unreached(before) >= RefreshAt(before);
            && RefreshesIn(after) == RefreshesIn(before) + (if due then [Unreached(before)] else [])
            && Unreached(after) == (if IsUnreachable(rounds[i]) then Unreached(before) + 1 else 0)
            && RefreshAt(after) ==
               if !IsUnreachable(rounds[i]) then FIRST_REFRESH_AT
               else if !due then RefreshAt(before)
               else Unreached(before) + if rounds[i].offline then OFFLINE_REFRESH_EVERY else REFRESH_EVERY
  {
    var after := rounds[..i + 1];
    assert after[..|after| - 1] == rounds[..i] && after[|after| - 1] == rounds[i];
  }

  /** It is the length of the longest stretch of unreachable dials that ends the rounds. */
  lemma {:induction false} UnreachedIsTheStreak(rounds: seq<Round>)
    ensures var n := Unreached(rounds);
            && n <= |rounds|
            && (forall i :: |rounds| - n <= i < |rounds| ==> rounds[i].Try? && rounds[i].outcome == Down(Unreachable))
            && (n < |rounds| ==>
                  var r := rounds[|rounds| - n - 1]; r.StopSignal? || r.outcome != Down(Unreachable))
  {
    if rounds != [] && IsUnreachable(rounds[|rounds| - 1]) {
      UnreachedIsTheStreak(rounds[..|rounds| - 1]);
    }
  }

  /** With the link merely slow to come back, routes are refreshed exactly at streaks of 2, 7, 12 and so on. */
  lemma {:induction false} RefreshesEveryFifth(rounds: seq<Round>)
    requires forall r :: r in rounds && r.Try? ==> !r.offline
    ensures Refreshes(rounds) <==> Unreached(rounds) >= 2 && Unreached(rounds) % 5 == 2
    ensures Unreached(rounds) <= RefreshAt(rounds) < Max(Unreached(rounds), FIRST_REFRESH_AT) + REFRESH_EVERY
    ensures RefreshAt(rounds) % REFRESH_EVERY == 2
  {
    if rounds != [] && IsUnreachable(rounds[|rounds| - 1]) {
      assert rounds[|rounds| - 1] in rounds;
      assert forall r :: r in rounds[..|rounds| - 1] ==> r in rounds;
      RefreshesEveryFifth(rounds[..|rounds| - 1]);
      RefreshStep(rounds, |rounds| - 1);
      assert rounds[..|rounds|] == rounds;
      hide Unreached, RefreshAt;
      FifthIsDue(Unreached(rounds), RefreshAt(rounds));
    }
  }

  lemma FifthIsDue(c: nat, next: nat)
    requires c <= next < Max(c, FIRST_REFRESH_AT) + REFRESH_EVERY && next % REFRESH_EVERY == 2
    ensures c >= next <==> c >= FIRST_REFRESH_AT && c % REFRESH_EVERY == 2
  {
  }

  /** With the system offline, every dial from a streak of 2 on is preceded by a refresh. */
  lemma {:induction false} RefreshesEveryTimeOffline(rounds: seq<Round>)
    requires forall r :: r in rounds && r.Try? ==> r.offline
    ensures Refreshes(rounds) <==> Unreached(rounds) >= 2
    ensures RefreshAt(rounds) == Max(Unreached(rounds), FIRST_REFRESH_AT)
  {
    if rounds != [] && IsUnreachable(rounds[|rounds| - 1]) {
      assert rounds[|rounds| - 1] in rounds;
      assert forall r :: r in rounds[..|rounds| - 1] ==> r in rounds;
      RefreshesEveryTimeOffline(rounds[..|rounds| - 1]);
      RefreshStep(rounds, |rounds| - 1);
      assert rounds[..|rounds|] == rounds;
    }
  }

  function Max(a: int, b: int): int {
    if a < b then b else a
  }

  function NextDelay(d: nat): nat {
    if d * 3 / 2 > MAX_RECONNECT_DELAY then MAX_RECONNECT_DELAY else d * 3 / 2
  }

  /** The pause before retry n + 1. */
  function DelayAt(n: nat): nat {
    if n == 0 then RECONNECT_DELAY else NextDelay(DelayAt(n - 1))
  }

  /** Pauses stay within 3..30 s, never shrink, and grow by half until they reach 30 s. */
  lemma {:induction false} DelaysBackOff(n: nat)
    ensures DelayAt(0) == 3_000_000_000 <= DelayAt(n) <= DelayAt(n + 1) <= 30_000_000_000
    ensures DelayAt(n + 1) == if DelayAt(n) * 3 / 2 > 30_000_000_000 then 30_000_000_000 else DelayAt(n) * 3 / 2
  {
    if n > 0 {
      DelaysBackOff(n - 1);
    }
  }

  ghost predicate Backoff(slept: seq<nat>) {
    && (forall i :: 0 <= i < |slept| ==> RECONNECT_DELAY <= slept[i] <= MAX_RECONNECT_DELAY)
    && (forall i, j :: 0 <= i < j < |slept| ==> slept[i] <= slept[j])
  }

  /** The first n pauses. */
  function Pauses(n: nat): (s: seq<nat>)
    ensures |s| == n
  {
    if n == 0 then [] else Pauses(n - 1) + [DelayAt(n - 1)]
  }

  lemma {:induction false} PauseAt(n: nat, i: nat)
    requires i < n
    ensures Pauses(n)[i] == DelayAt(i)
  {
    hide DelayAt;
    if i < n - 1 {
      PauseAt(n - 1, i);
    }
  }

  lemma {:induction false} DelaysRise(i: nat, j: nat)
    requires i <= j
    ensures DelayAt(i) <= DelayAt(j)
    decreases j
  {
    hide DelayAt;
    if i < j {
      DelaysRise(i, j - 1);
      DelaysBackOff(j - 1);
    }
  }

  lemma PausesBackOff(n: nat)
    ensures Backoff(Pauses(n))
    ensures forall i :: 0 <= i < n ==> Pauses(n)[i] == DelayAt(i)
  {
    hide DelayAt, Pauses;
    forall i | 0 <= i < n ensures Pauses(n)[i] == DelayAt(i) && RECONNECT_DELAY <= DelayAt(i) <= MAX_RECONNECT_DELAY {
      PauseAt(n, i);
      DelaysBackOff(i);
    }
    forall i, j | 0 <= i < j < n ensures DelayAt(i) <= DelayAt(j) {
      DelaysRise(i, j);
    }
  }

  lemma PauseNext(n: nat)
    requires n > 0
    ensures Pauses(n) == Pauses(n - 1) + [DelayAt(n - 1)] && DelayAt(n) == NextDelay(DelayAt(n - 1))
  {
  }

  lemma NoPauseYet()
    ensures Pauses(0) == [] && DelayAt(0) == RECONNECT_DELAY
  {
  }

  /** A verdict other than Retry has its cause among the rounds: a dial that came up, a stop signal, or a rejection
      by the last ring server that had not rejected yet. */
  lemma {:induction false} RebuildEndsForCause(e: Engine, rounds: seq<Round>)
    requires Sound(e)
    ensures var (after, v) := Rebuilt(e, rounds);
            && Sound(after)
            && (v == Restored ==>
                  && after.transport.Some? && after.failures == 0
                  && (after.ring.Some? ==> after.ring.value.rejected == {}))
            && (v == Stopped ==> StopSignal in rounds)
            && (v == GaveUp ==> EveryoneRejected(after.ring))
            && (after.rebuildSawUnreach ==>
                  (e.rebuildSawUnreach ||
                   exists i :: 0 <= i < |rounds| && rounds[i].Try? && rounds[i].outcome == Down(Unreachable)))
    decreases |rounds|
  {
    if rounds != [] && rounds[0].Try? {
      var o := rounds[0].outcome;
      AttemptedSound(e, o);
      if VerdictOf(e, o) == Retry {
        RebuildEndsForCause(Attempted(e, o), rounds[1..]);
        var later := rounds[1..];
        assert forall i :: 0 <= i < |later| ==> later[i] == rounds[i + 1];
      }
    }
  }

  // ----- the retry loop is a run of the machine -----

  function Tries(outcomes: seq<Outcome>): seq<Round> {
    if outcomes == [] then [] else Tries(outcomes[..|outcomes| - 1]) + [Try(outcomes[|outcomes| - 1], false)]
  }

  function Attempts(outcomes: seq<Outcome>): seq<Step> {
    seq(|outcomes|, i requires 0 <= i < |outcomes| => Attempt(outcomes[i]))
  }

  lemma {:induction false} RebuiltSnoc(e: Engine, rounds: seq<Round>, o: Outcome, offline: bool)
    requires Sound(e) && Rebuilt(e, rounds).1 == Retry
    ensures var (before, _) := Rebuilt(e, rounds);
            Sound(before) && Rebuilt(e, rounds + [Try(o, offline)]) == (Attempted(before, o), VerdictOf(before, o))
    decreases |rounds|
  {
    hide Attempted, VerdictOf;
    var all := rounds + [Try(o, offline)];
    if rounds == [] {
      assert all[1..] == [];
      AttemptedSound(e, o);
    } else {
      assert all[0] == rounds[0] && all[1..] == rounds[1..] + [Try(o, offline)];
      AttemptedSound(e, rounds[0].outcome);
      RebuiltSnoc(Attempted(e, rounds[0].outcome), rounds[1..], o, offline);
    }
  }

  /** As long as it retries, the loop of reconnectTransport is a run of Attempt steps of the machine. */
  lemma {:induction false} RetryingIsAttempts(m: Machine, outcomes: seq<Outcome>)
    requires Sound(m.engine) && m.phase.Rebuilding?
    requires Rebuilt(m.engine.(transport := None), Tries(outcomes)).1 == Retry
    ensures IsRun(m, Attempts(outcomes))
    ensures var now := Run(m, Attempts(outcomes));
            now.phase == m.phase && now.misses == m.misses && Sound(now.engine) &&
            now.engine.(transport := None) == Rebuilt(m.engine.(transport := None), Tries(outcomes)).0
  {
    var down := m.engine.(transport := None);
    if outcomes != [] {
      var init, o := outcomes[..|outcomes| - 1], outcomes[|outcomes| - 1];
      assert Attempts(outcomes)[..|outcomes| - 1] == Attempts(init);
      PrefixRetries(down, init, o);
      RetryingIsAttempts(m, init);
      RebuiltSnoc(down, Tries(init), o, false);
      AttemptedSound(Rebuilt(down, Tries(init)).0, o);
    }
  }

  /** The round that ends the loop is the Attempt that ends the rebuild, with the same engine. */
  lemma RebuildIsAttempts(m: Machine, outcomes: seq<Outcome>, last: Outcome)
    requires Sound(m.engine) && m.phase.Rebuilding?
    requires var down := m.engine.(transport := None);
             Rebuilt(down, Tries(outcomes)).1 == Retry && Rebuilt(down, Tries(outcomes + [last])).1 != Retry
    ensures IsRun(m, Attempts(outcomes + [last]))
    ensures var (e, v) := Rebuilt(m.engine.(transport := None), Tries(outcomes + [last]));
            Run(m, Attempts(outcomes + [last])) ==
            if v == Restored then Machine(Recovered(e, m.phase.keepConns), Watching, 0)
            else Machine(e.(status := Inactive), Halted, m.misses)
  {
    var all := outcomes + [last];
    assert all[..|all| - 1] == outcomes;
    assert Attempts(all)[..|all| - 1] == Attempts(outcomes);
    RetryingIsAttempts(m, outcomes);
    RebuiltSnoc(m.engine.(transport := None), Tries(outcomes), last, false);
  }

  lemma PrefixRetries(e: Engine, init: seq<Outcome>, o: Outcome)
    requires Sound(e) && Rebuilt(e, Tries(init + [o])).1 == Retry
    ensures Rebuilt(e, Tries(init)).1 == Retry
  {
    assert (init + [o])[..|init|] == init;
    if Rebuilt(e, Tries(init)).1 != Retry {
      RebuiltPrefix(e, Tries(init), [Try(o, false)]);
    }
  }

  /** A verdict is final: further rounds do not change it. */
  lemma {:induction false} RebuiltPrefix(e: Engine, rounds: seq<Round>, more: seq<Round>)
    requires Sound(e) && Rebuilt(e, rounds).1 != Retry
    ensures Rebuilt(e, rounds + more) == Rebuilt(e, rounds)
    decreases |rounds|
  {
    hide Attempted, VerdictOf;
    if rounds[0].Try? {
      assert (rounds + more)[1..] == rounds[1..] + more;
      AttemptedSound(e, rounds[0].outcome);
      if VerdictOf(e, rounds[0].outcome) == Retry {
        RebuiltPrefix(Attempted(e, rounds[0].outcome), rounds[1..], more);
      }
    }
  }

  class TunEngine {
    var status: Status
    var transport: Option<Mode>
    var ring: Option<Ring>
    var serverAddr: Address
    var streamOpenFailures: nat
    var streakSawUnreach: bool
    var rebuildSawUnreach: bool
    var sweeps: nat

    ghost function View(): Engine
      reads this
    {
      Engine(status, transport, ring, serverAddr, streamOpenFailures, streakSawUnreach, rebuildSawUnreach, sweeps)
    }

    ghost predicate Valid()
      reads this
    {
      Sound(View())
    }

    constructor (mode: Mode, ring: Option<Ring>, serverAddr: Address)
      requires ring.Some? ==> ring.value.Valid()
      ensures Valid() && Started(Machine(View(), Watching, 0))
    {
      status, transport, this.ring, this.serverAddr := Active, Some(mode), ring, serverAddr;
      streamOpenFailures, streakSawUnreach, rebuildSawUnreach, sweeps := 0, false, false, 0;
    }

    method NoteStreamOpenFailure(err: StreamError)
      modifies this
      ensures View() == NotedFailure(old(View()), err)
    {
      if err.ConnectRejected? {
        return;
      }
      if status != Active {
        return;
      }
      streamOpenFailures := streamOpenFailures + 1;
      var unreach := err.NoRoute?;
      if streamOpenFailures == 1 {
        streakSawUnreach := unreach;
      } else if unreach {
        streakSawUnreach := true;
      }
    }

    method StreamOpenGate() returns (refuse: bool)
      ensures refuse == GateClosed(View())
    {
      refuse := streamOpenFailures >= STREAM_FAILURE_THRESHOLD;
    }

    method EnterReconnecting(sweep: bool) returns (flipped: bool)
      modifies this
      ensures View() == EnteredReconnecting(old(View()), sweep) && flipped == (old(status) == Active)
    {
      if status != Active {
        return false;
      }
      status := Reconnecting;
      if sweep {
        sweeps := sweeps + 1;
      }
      flipped := true;
    }

    method SetConnected()
      modifies this
      ensures View() == ConnectedAgain(old(View()))
    {
      if status != Reconnecting {
        return;
      }
      status := Active;
      streamOpenFailures := 0;
    }

    /** One dial; `target` is the server it goes to. */
    method TryReconnectOnce(o: Outcome) returns (target: Address)
      requires Valid()
      modifies this
      ensures Valid() && View() == DialledOnce(old(View()), o) && target == Target(old(View()))
    {
      AttemptedSound(View(), o);
      target := if ring.Some? then ring.value.Current() else serverAddr;
      if o.Down? {
        if ring.Some? {
          ring := Some(ring.value.Noted(target, o.err));
        }
        return;
      }
      if ring.Some? {
        ring := Some(ring.value.Succeeded());
      }
      transport := Some(o.mode);
      serverAddr := target;
      streamOpenFailures := 0;
    }

    /** Retries without limit; `rounds` is how the first rounds go and Retry means they went by without an end.
        `slept` lists the pauses before each retry, `refreshes` the unreachable streak at each route refresh and
        `dialled` the servers dialled. */
    method ReconnectTransport(rounds: seq<Round>)
      returns (v: Verdict, slept: seq<nat>, refreshes: seq<nat>, dialled: seq<Address>)
      requires Valid()
      modifies this
      ensures Valid() && (View(), v) == Rebuilt(old(View()).(transport := None), rounds)
      ensures var dials := Dials(old(View()).(transport := None), rounds);
              slept == Pauses(Max(dials - 1, 0)) && refreshes == RefreshesIn(rounds[..dials])
      ensures dialled == Dialled(old(View()).(transport := None), rounds)
    {
      hide Ring.Noted, Attempted, VerdictOf, Target, Unreached, RefreshAt, RefreshesIn, Rebuilt, Dials, Dialled;
      hide NextDelay, DelayAt, Pauses;
      RefreshStart(rounds);
      NoPauseYet();
      transport := None;
      ghost var start := View();
      LoopEnds(start, rounds);
      var consecutiveUnreach, nextRefreshAt, delay := 0, FIRST_REFRESH_AT, RECONNECT_DELAY;
      slept, refreshes, dialled := [], [], [];
      for i := 0 to |rounds|
        invariant Valid() && Rebuilt(start, rounds) == Rebuilt(View(), rounds[i..])
        invariant Dials(start, rounds) == i + Dials(View(), rounds[i..])
        invariant Dialled(start, rounds) == dialled + Dialled(View(), rounds[i..])
        invariant slept == Pauses(Max(i - 1, 0)) && delay == DelayAt(Max(i - 1, 0))
        invariant consecutiveUnreach == Unreached(rounds[..i]) && nextRefreshAt == RefreshAt(rounds[..i])
        invariant refreshes == RefreshesIn(rounds[..i])
      {
        LoopStep(View(), rounds, i);
        if rounds[i].StopSignal? {
          return Stopped, slept, refreshes, dialled;
        }
        RefreshStep(rounds, i);
        var o := rounds[i].outcome;
        if i > 0 {
          PauseNext(i);
          slept := slept + [delay];
          delay := NextDelay(delay);
        }
        if consecutiveUnreach >= nextRefreshAt {
          refreshes := refreshes + [consecutiveUnreach];
          nextRefreshAt := consecutiveUnreach + if rounds[i].offline then OFFLINE_REFRESH_EVERY else REFRESH_EVERY;
        }
        var verdict, target := OneRound(o);
        dialled := dialled + [target];
        if verdict != Retry {
          return verdict, slept, refreshes, dialled;
        }
        if o == Down(Unreachable) {
          consecutiveUnreach := consecutiveUnreach + 1;
        } else {
          consecutiveUnreach := 0;
          nextRefreshAt := FIRST_REFRESH_AT;
        }
      }
      LoopEnds(View(), rounds);
      v := Retry;
    }

    method OneRound(o: Outcome) returns (v: Verdict, target: Address)
      requires Valid()
      modifies this
      ensures Valid() && View() == Attempted(old(View()), o) && v == VerdictOf(old(View()), o)
      ensures target == Target(old(View()))
    {
      AttemptedSound(View(), o);
      target := TryReconnectOnce(o);
      if o.Up? {
        return Restored, target;
      }
      if o.err.InvalidKey? && (ring.None? || ring.value.AllRejected()) {
        return GaveUp, target;
      }
      if o.err.Unreachable? {
        rebuildSawUnreach := true;
      }
      v := Retry;
    }

    /** D3: rebuild the transport, first in place when an Auto transport over UDP can fall back to TLS; otherwise
        `rounds` are the rounds of the retry loop up to the one that ends it. */
    method RunD3(fallsBack: bool, rounds: seq<Round>) returns (exit: bool)
      requires Valid() && (fallsBack ==> transport == Some(Udp))
      requires fallsBack || Rebuilt(Tripped(View()).(transport := None), rounds).1 != Retry
      modifies this
      ensures Valid()
      ensures var e := old(View());
              var tripped := Tripped(e);
              var (after, v) := Rebuilt(tripped.(transport := None), rounds);
              if fallsBack then !exit && View() == Recovered(tripped.(transport := Some(Tls)), KeepsConns(e))
              else if v == Restored then !exit && View() == Recovered(after, KeepsConns(e))
              else if v == GaveUp then exit && View() == after.(status := Inactive)
              else exit && View() == after
    {
      hide Ring.Noted, Rebuilt;
      streamOpenFailures := 0;
      rebuildSawUnreach := streakSawUnreach;
      streakSawUnreach := false;
      var keepConns := transport == Some(Tls);
      var flipped := EnterReconnecting(!keepConns);
      if fallsBack {
        transport := Some(Tls);
        FinishD3(keepConns);
        return false;
      }
      var v, slept, refreshes, dialled := ReconnectTransport(rounds);
      if v == Restored {
        FinishD3(keepConns);
        return false;
      }
      if v == GaveUp {
        status := Inactive;
      }
      exit := true;
    }

    method FinishD3(keepConns: bool)
      modifies this
      ensures View() == Recovered(old(View()), keepConns)
    {
      if keepConns && rebuildSawUnreach {
        sweeps := sweeps + 1;
      }
      SetConnected();
    }
  }
}
