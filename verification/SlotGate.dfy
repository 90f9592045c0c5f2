/** The wake-up channel between OnAck and blocked senders, at the granularity of its critical sections
    (pkg/udp/arq/congestion.go, AcquireSlot and the tail of OnAck). */
module SlotGate {
  import opened RttEstimation
  import opened BandwidthEstimation
  import opened Congestion

  /** `waiting` senders sit in the select, `checking` senders have taken a token and not yet looked at the
      window, and OnAck calls that have left their critical section still have `pushing` tokens to push. */
  datatype Gate = Gate(window: Window, tokens: nat, waiting: nat, checking: nat, pushing: nat, admitted: nat)

  datatype Step =
    | Arrive
    | TakeToken
    | Check
    | AckLocked(n: nat, at: int)
    | Push
    | Leave
    | Estimated(bwe: Bandwidth)

  function Opened(start: int): Gate {
    Gate(NewWindow(start), STARTUP_CWND, 0, 0, 0, 0)
  }

  predicate Enabled(g: Gate, s: Step) {
    match s
    case Arrive => true
    case TakeToken => g.waiting > 0 && g.tokens > 0
    case Check => g.checking > 0
    case AckLocked(_, _) => true
    case Push => g.pushing > 0
    case Leave => g.waiting > 0
    case Estimated(_) => true
  }

  function Next(g: Gate, s: Step): Gate
    requires Enabled(g, s)
  {
    match s
    case Arrive => g.(waiting := g.waiting + 1)
    case TakeToken => g.(waiting := g.waiting - 1, tokens := g.tokens - 1, checking := g.checking + 1)
    case Check =>
      if CanAcquire(g.window)
      then g.(checking := g.checking - 1, window := Acquired(g.window), admitted := g.admitted + 1)
      else g.(checking := g.checking - 1, waiting := g.waiting + 1)
    case AckLocked(n, at) =>
      var w := AfterAck(g.window, n, at);
      g.(window := w, pushing := g.pushing + Available(w))
    case Push => g.(pushing := g.pushing - 1, tokens := Min(g.tokens + 1, MAX_CWND))
    case Leave => g.(waiting := g.waiting - 1)
    case Estimated(b) => g.(window := g.window.(bwe := b))
  }

  ghost predicate IsRun(g: Gate, steps: seq<Step>)
    decreases |steps|
  {
    steps == [] || (Enabled(g, steps[0]) && IsRun(Next(g, steps[0]), steps[1..]))
  }

  ghost function After(g: Gate, steps: seq<Step>): Gate
    requires IsRun(g, steps)
    decreases |steps|
  {
    if steps == [] then g else After(Next(g, steps[0]), steps[1..])
  }

  /** Every free slot of the window has a token in the channel, in a sender's hand, or about to be pushed. */
  ghost predicate Covered(g: Gate) {
    && Sized(g.window)
    && g.tokens <= MAX_CWND
    && g.tokens + g.checking + g.pushing >= g.window.cwnd - g.window.inFlight
  }

  lemma StepKeepsCovered(g: Gate, s: Step)
    requires Covered(g) && Enabled(g, s)
    ensures Covered(Next(g, s))
  {
    if s.AckLocked? {
      AfterAckSized(g.window, s.n, s.at);
    }
  }

  lemma {:induction false} RunKeepsCovered(g: Gate, steps: seq<Step>)
    requires Covered(g) && IsRun(g, steps)
    ensures Covered(After(g, steps))
    decreases |steps|
  {
    if steps != [] {
      StepKeepsCovered(g, steps[0]);
      RunKeepsCovered(Next(g, steps[0]), steps[1..]);
    }
  }

  /** No lost wake-up, under every interleaving of senders and acknowledgements: when no token exists and
      none is coming, the window really is full. */
  lemma NoLostWakeUp(start: int, steps: seq<Step>)
    requires IsRun(Opened(start), steps)
    ensures var g := After(Opened(start), steps);
            && g.tokens + g.checking + g.pushing >= g.window.cwnd - g.window.inFlight
            && (g.tokens == 0 && g.checking == 0 && g.pushing == 0 ==> !CanAcquire(g.window))
  {
    RunKeepsCovered(Opened(start), steps);
  }

  /** The steps that let one sender in while the window has room. */
  function Admitting(g: Gate): seq<Step> {
    if g.checking > 0 then [Check]
    else if g.tokens > 0 then [TakeToken, Check]
    else [Push, TakeToken, Check]
  }

  /** Whenever the window has room and a sender is present, at most three steps, none of them a new
      acknowledgement, admit a sender. */
  lemma RoomMeansAdmission(start: int, steps: seq<Step>)
    requires IsRun(Opened(start), steps)
    requires var g := After(Opened(start), steps); CanAcquire(g.window) && g.waiting + g.checking > 0
    ensures var g := After(Opened(start), steps);
            && IsRun(g, Admitting(g))
            && After(g, Admitting(g)).admitted == g.admitted + 1
  {
    NoLostWakeUp(start, steps);
    var g := After(Opened(start), steps);
    if g.checking > 0 {
      assert [Check][1..] == [];
      OneStep(g, Check);
    } else if g.tokens > 0 {
      TwoSteps(g, TakeToken, Check);
    } else {
      var pushed := Next(g, Push);
      TwoSteps(pushed, TakeToken, Check);
      assert [Push, TakeToken, Check][1..] == [TakeToken, Check];
    }
  }

  lemma OneStep(g: Gate, s: Step)
    requires Enabled(g, s)
    ensures IsRun(g, [s]) && After(g, [s]) == Next(g, s)
  {
    assert [s][1..] == [];
  }

  lemma TwoSteps(g: Gate, s: Step, t: Step)
    requires Enabled(g, s) && Enabled(Next(g, s), t)
    ensures IsRun(g, [s, t]) && After(g, [s, t]) == Next(Next(g, s), t)
  {
    OneStep(Next(g, s), t);
    assert [s, t][1..] == [t];
  }
}
