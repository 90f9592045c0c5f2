/** Which server a reconnect dials (daemon/internal/tun/engine.go, tryReconnectOnce; servers.go, NoteFailure). */
module EngineFailover {
  import opened Bytes
  import opened ServerRings
  import opened EngineRecovery

  // ----- counting round the ring -----

  lemma ModUnique(x: nat, n: nat, q: nat, r: nat)
    requires r < n && x == q * n + r
    ensures x % n == r
  {
    var p := x / n;
    assert x == p * n + x % n;
    if p < q {
      MulOrder(p + 1, q, n);
    } else if q < p {
      MulOrder(q + 1, p, n);
    }
  }

  lemma ModNext(x: nat, n: nat)
    requires n > 0
    ensures (x + 1) % n == if x % n + 1 < n then x % n + 1 else 0
  {
    var q, r := x / n, x % n;
    assert x == q * n + r;
    if r + 1 < n {
      ModUnique(x + 1, n, q, r + 1);
    } else {
      assert (q + 1) * n == q * n + n;
      ModUnique(x + 1, n, q + 1, 0);
    }
  }

  /** One failure moves the ring by one place, unless the link itself was down. */
  lemma NotedTurns(r: Ring, start: nat, blamed: nat, addr: Address, err: DialError)
    requires r.Valid() && r.cur == (start + blamed) % |r.addrs|
    ensures r.Noted(addr, err).addrs == r.addrs
    ensures r.Noted(addr, err).cur == (start + blamed + if err == Unreachable then 0 else 1) % |r.addrs|
  {
    ModNext(start + blamed, |r.addrs|);
  }

  // ----- over whole runs of the engine -----

  /** The failed dials of the run that blame the server dialled: all but those that found the link down. */
  function Blamed(steps: seq<EngineRecovery.Step>): nat {
    if steps == [] then 0 else
    var s := steps[|steps| - 1];
    Blamed(steps[..|steps| - 1]) + if s.Attempt? && s.outcome.Down? && s.outcome.err != Unreachable then 1 else 0
  }

  /** Where the ring stands after a run: as many places on as dials have blamed their server. */
  lemma {:induction false} RingTurnsWithBlame(m: Machine, steps: seq<EngineRecovery.Step>)
    requires Started(m) && IsRun(m, steps) && m.engine.ring.Some?
    ensures var ring, now := m.engine.ring.value, EngineRecovery.Run(m, steps).engine.ring;
            && now.Some? && now.value.addrs == ring.addrs && now.value.Valid()
            && now.value.cur == (ring.cur + Blamed(steps)) % |ring.addrs|
  {
    hide EngineRecovery.Next, EngineRecovery.Enabled, Ring.Noted, Ring.AllRejected;
    var ring := m.engine.ring.value;
    if steps == [] {
      ModUnique(ring.cur, |ring.addrs|, 0, ring.cur);
    } else {
      var init, s := steps[..|steps| - 1], steps[|steps| - 1];
      RingTurnsWithBlame(m, init);
      var before := EngineRecovery.Run(m, init);
      StepOnRing(before, s);
      if s.Attempt? && s.outcome.Down? {
        var err, target := s.outcome.err, Target(before.engine);
        NotedTurns(before.engine.ring.value, ring.cur, Blamed(init), target, err);
      }
    }
  }

  /** What a dial that succeeds leaves behind. */
  lemma SuccessPublishes(m: Machine, mode: Mode)
    requires Sound(m.engine) && m.phase.Rebuilding?
    ensures var after := EngineRecovery.Next(m, Attempt(Up(mode))).engine;
            && after.transport == Some(mode) && after.failures == 0
            && after.serverAddr == (if m.engine.ring.Some? then m.engine.ring.value.addrs[m.engine.ring.value.cur]
                                    else m.engine.serverAddr)
            && (after.ring.Some? <==> m.engine.ring.Some?)
            && (after.ring.Some? ==> after.ring.value == m.engine.ring.value.(rejected := {}))
  {
  }

  /** Failover, over any run: a dial goes to the server as many places on from the first as dials have blamed their
      server so far, and if it succeeds that server is published, stays current, and the transport has the mode
      of the dial. */
  lemma FailoverFollowsBlame(m: Machine, steps: seq<EngineRecovery.Step>, mode: Mode)
    requires Started(m) && IsRun(m, steps) && m.engine.ring.Some?
    requires EngineRecovery.Run(m, steps).phase.Rebuilding?
    ensures var ring := m.engine.ring.value;
            var now := EngineRecovery.Run(m, steps);
            var place := (ring.cur + Blamed(steps)) % |ring.addrs|;
            && Sound(now.engine) && Target(now.engine) == ring.addrs[place]
            && var after := EngineRecovery.Next(now, Attempt(Up(mode))).engine;
               && after.serverAddr == ring.addrs[place] && after.transport == Some(mode)
               && after.ring == Some(Ring(ring.addrs, place, {}))
  {
    RingTurnsWithBlame(m, steps);
    SuccessPublishes(EngineRecovery.Run(m, steps), mode);
    hide EngineRecovery.Next, EngineRecovery.Run, EngineRecovery.IsRun;
  }

  // ----- the retry loop -----

  /** The dials among the rounds that blame the server dialled. */
  function BlamedRounds(rounds: seq<Round>): nat {
    if rounds == [] then 0 else
    BlamedRounds(rounds[1..]) +
    if rounds[0].Try? && rounds[0].outcome.Down? && rounds[0].outcome.err != Unreachable then 1 else 0
  }

  lemma AttemptTurns(e: Engine, start: nat, blamed: nat, o: Outcome)
    requires Sound(e) && e.ring.Some? && e.ring.value.cur == (start + blamed) % |e.ring.value.addrs|
    ensures var after := Attempted(e, o);
            && Sound(after) && after.ring.Some? && after.ring.value.addrs == e.ring.value.addrs
            && after.ring.value.cur ==
               (start + blamed + if o.Down? && o.err != Unreachable then 1 else 0) % |e.ring.value.addrs|
    ensures Target(e) == e.ring.value.addrs[(start + blamed) % |e.ring.value.addrs|]
  {
    AttemptedSound(e, o);
    if o.Down? {
      NotedTurns(e.ring.value, start, blamed, Target(e), o.err);
    }
    hide Ring.Noted;
  }

  lemma {:induction false} DialledFrom(e: Engine, rounds: seq<Round>, start: nat, blamed: nat, i: nat)
    requires Sound(e) && e.ring.Some? && e.ring.value.cur == (start + blamed) % |e.ring.value.addrs|
    requires i < Dials(e, rounds)
    ensures Dialled(e, rounds)[i] ==
            e.ring.value.addrs[(start + blamed + BlamedRounds(rounds[..i])) % |e.ring.value.addrs|]
    decreases i
  {
    hide Attempted, Target, VerdictOf;
    var o := rounds[0].outcome;
    AttemptTurns(e, start, blamed, o);
    if i > 0 {
      var b := if o.Down? && o.err != Unreachable then 1 else 0;
      DialledFrom(Attempted(e, o), rounds[1..], start, blamed + b, i - 1);
      assert rounds[..i][0] == rounds[0] && rounds[..i][1..] == rounds[1..][..i - 1];
    }
  }

  lemma RingIsSound(e: Engine)
    requires Sound(e) && e.ring.Some?
    ensures e.ring.value.Valid()
  {
  }

  /** The retry loop dials the current server first and moves one place on after every dial that blames its server. */
  lemma RetriesGoRound(e: Engine, rounds: seq<Round>, i: nat)
    requires Sound(e) && e.ring.Some? && i < Dials(e, rounds)
    ensures var ring := e.ring.value;
            Dialled(e, rounds)[i] == ring.addrs[(ring.cur + BlamedRounds(rounds[..i])) % |ring.addrs|]
  {
    hide Dialled, Dials, BlamedRounds, Sound;
    RingIsSound(e);
    ModUnique(e.ring.value.cur, |e.ring.value.addrs|, 0, e.ring.value.cur);
    DialledFrom(e, rounds, e.ring.value.cur, 0, i);
  }

  lemma {:induction false} AllBlamed(rounds: seq<Round>)
    requires forall r :: r in rounds ==> r.Try? && r.outcome.Down? && r.outcome.err != Unreachable
    ensures BlamedRounds(rounds) == |rounds|
    decreases |rounds|
  {
    if rounds != [] {
      assert rounds[0] in rounds && forall r :: r in rounds[1..] ==> r in rounds;
      AllBlamed(rounds[1..]);
    }
  }

  /** As long as every dial blames its server, one turn of the retry loop dials the servers of the ring in the order
      ConnectAny would, hence each of them once. */
  lemma OneTurnReachesEveryServer(e: Engine, rounds: seq<Round>)
    requires Sound(e) && e.ring.Some? && |e.ring.value.addrs| <= Dials(e, rounds)
    requires forall i :: 0 <= i < |e.ring.value.addrs| ==>
               rounds[i].Try? && rounds[i].outcome.Down? && rounds[i].outcome.err != Unreachable
    ensures var n := |e.ring.value.addrs|;
            && Dialled(e, rounds)[..n] == DialOrder(e.ring.value)
            && forall a :: a in e.ring.value.addrs ==> a in Dialled(e, rounds)[..n]
  {
    hide Dialled, Dials, BlamedRounds;
    var ring := e.ring.value;
    var n := |ring.addrs|;
    forall i | 0 <= i < n ensures Dialled(e, rounds)[i] == DialOrder(ring)[i] {
      RetriesGoRound(e, rounds, i);
      AllBlamed(rounds[..i]);
      WrapIsMod(ring.cur, i, n);
    }
    hide Sound;
    assert Dialled(e, rounds)[..n] == DialOrder(ring);
    hide DialOrder;
    forall a | a in ring.addrs ensures a in DialOrder(ring) {
      var i :| 0 <= i < n && ring.addrs[i] == a;
      DialOrderComplete(ring, i);
    }
  }

  /** When the loop restores the transport, the server it dialled last is the published one and the transport has the
      mode of that dial. */
  lemma {:induction false} RestoredServer(e: Engine, rounds: seq<Round>)
    requires Sound(e) && Rebuilt(e, rounds).1 == Restored
    ensures var n, after := Dials(e, rounds), Rebuilt(e, rounds).0;
            && n > 0 && rounds[n - 1].Try? && rounds[n - 1].outcome.Up?
            && after.serverAddr == Dialled(e, rounds)[n - 1]
            && after.transport == Some(rounds[n - 1].outcome.mode)
            && (after.ring.Some? ==> after.ring.value.cur < |after.ring.value.addrs| &&
                                     after.ring.value.addrs[after.ring.value.cur] == after.serverAddr)
    decreases |rounds|
  {
    hide Ring.Noted, Ring.AllRejected;
    AttemptedSound(e, rounds[0].outcome);
    if VerdictOf(e, rounds[0].outcome) == Retry {
      RestoredServer(Attempted(e, rounds[0].outcome), rounds[1..]);
    }
  }
}
