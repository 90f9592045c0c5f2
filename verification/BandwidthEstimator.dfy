/** Delivery-rate and minimum-RTT estimation (pkg/udp/arq/bandwidth.go). Rates are reals in bytes per
    second, times and durations are nanoseconds. */
module BandwidthEstimation {
  import opened RttEstimation

  const BW_WINDOW_SIZE := 64
  const MIN_RTT_WINDOW := 10 * SECOND
  const MIN_STABLE_SAMPLES := 8

  /** The sender's delivery state when a packet was sent. */
  datatype Snapshot = Snapshot(delivered: nat, deliveredAt: int, sentAt: int)

  datatype Bandwidth = Bandwidth(
    delivered: nat, deliveredAt: int, samples: seq<real>, maxBW: real, minRTT: nat, minRTTTime: int)

  function NewBandwidth(now: int): Bandwidth {
    Bandwidth(0, now, [], 0.0, 0, 0)
  }

  function Seconds(d: int): real {
    d as real / SECOND as real
  }

  function SnapshotOf(b: Bandwidth, now: int): Snapshot {
    Snapshot(b.delivered, b.deliveredAt, now)
  }

  function Delivered(b: Bandwidth, count: nat, now: int): Bandwidth {
    if count == 0 then b else b.(delivered := b.delivered + count, deliveredAt := now)
  }

  /** The last (at most) 64 entries. */
  function Recent<T>(s: seq<T>): (w: seq<T>)
    ensures |w| <= BW_WINDOW_SIZE && |w| <= |s| && w == s[|s| - |w|..]
    ensures |w| == BW_WINDOW_SIZE || w == s
  {
    if |s| > BW_WINDOW_SIZE then s[|s| - BW_WINDOW_SIZE..] else s
  }

  ghost predicate AllPositive(s: seq<real>) {
    forall i :: 0 <= i < |s| ==> s[i] > 0.0
  }

  /** m is the largest entry of s, or zero when s is empty. */
  ghost predicate IsMax(m: real, s: seq<real>) {
    (forall i :: 0 <= i < |s| ==> s[i] <= m) && (if s == [] then m == 0.0 else m in s)
  }

  function Peak(s: seq<real>): (m: real)
    ensures m >= 0.0
  {
    if s == [] then 0.0 else
    var rest := Peak(s[..|s| - 1]);
    if s[|s| - 1] > rest then s[|s| - 1] else rest
  }

  lemma {:induction false} PeakIsMax(s: seq<real>)
    requires AllPositive(s)
    ensures IsMax(Peak(s), s)
  {
    if s != [] {
      PeakIsMax(s[..|s| - 1]);
      assert s == s[..|s| - 1] + [s[|s| - 1]];
    }
  }

  /** The rate a snapshot yields, if both its byte count and its interval are positive. */
  function Rate(b: Bandwidth, snap: Snapshot, now: int): (r: real)
    ensures r >= 0.0
    ensures r > 0.0 <==> b.delivered > snap.delivered && (now > snap.sentAt || now > snap.deliveredAt)
  {
    var interval := b.delivered - snap.delivered;
    var elapsed := Max(now - snap.sentAt, now - snap.deliveredAt);
    if interval <= 0 || elapsed <= 0 then 0.0 else
    RatePositive(interval as real, Seconds(elapsed));
    interval as real / Seconds(elapsed)
  }

  lemma RatePositive(x: real, y: real)
    requires x > 0.0 && y > 0.0
    ensures x / y > 0.0
  {
  }

  lemma Quotient(bytes: real, longest: int, d: int)
    requires bytes > 0.0 && longest > 0 && d <= longest
    ensures bytes / Seconds(longest) * Seconds(longest) == bytes
    ensures bytes / Seconds(longest) * (d as real / 1_000_000_000.0) <= bytes
    ensures d == longest ==> bytes / Seconds(longest) * (d as real / 1_000_000_000.0) == bytes
  {
    var r := bytes / Seconds(longest);
    RatePositive(bytes, Seconds(longest));
    assert r * Seconds(longest) == bytes;
    var gap := Seconds(longest) - d as real / 1_000_000_000.0;
    assert gap >= 0.0;
    ProductNotNegative(r, gap);
    assert r * (Seconds(longest) - gap) == r * Seconds(longest) - r * gap;
  }

  lemma ProductNotNegative(x: real, y: real)
    requires x >= 0.0 && y >= 0.0
    ensures x * y >= 0.0
  {
  }

  /** r accounts for no more than the bytes over either time in nanoseconds and for all of them over one. */
  ghost predicate Measures(r: real, bytes: real, sinceSent: int, sinceDelivery: int) {
    var x, y := r * (sinceSent as real / 1_000_000_000.0), r * (sinceDelivery as real / 1_000_000_000.0);
    r > 0.0 && x <= bytes && y <= bytes && (x == bytes || y == bytes)
  }

  /** What a rate measures: over both the time since the packet was sent and the time since the delivery before it,
      the rate accounts for no more than the bytes delivered since the snapshot, and over the longer of the two
      for exactly these. */
  lemma RateMeasures(b: Bandwidth, snap: Snapshot, now: int)
    requires Rate(b, snap, now) > 0.0
    ensures Measures(Rate(b, snap, now), (b.delivered - snap.delivered) as real,
                     now - snap.sentAt, now - snap.deliveredAt)
  {
    var bytes := (b.delivered - snap.delivered) as real;
    var longest := Max(now - snap.sentAt, now - snap.deliveredAt);
    Quotient(bytes, longest, now - snap.sentAt);
    Quotient(bytes, longest, now - snap.deliveredAt);
    hide Seconds;
  }

  ghost predicate Consistent(b: Bandwidth) {
    && |b.samples| <= BW_WINDOW_SIZE
    && AllPositive(b.samples)
    && b.maxBW == Peak(b.samples)
  }

  /** A positive rate enters the window; the minimum RTT is replaced when beaten or older than 10 s. */
  function Pushed(b: Bandwidth, rate: real, rtt: nat, now: int): (r: Bandwidth) {
    var samples := Recent(b.samples + [rate]);
    var newMin := rtt > 0 && (b.minRTT == 0 || rtt < b.minRTT || now - b.minRTTTime > MIN_RTT_WINDOW);
    Bandwidth(b.delivered, b.deliveredAt, samples, Peak(samples),
              if newMin then rtt else b.minRTT, if newMin then now else b.minRTTTime)
  }

  lemma PushedConsistent(b: Bandwidth, rate: real, rtt: nat, now: int)
    requires Consistent(b) && rate > 0.0
    ensures Consistent(Pushed(b, rate, rtt, now))
  {
    var all := b.samples + [rate];
    assert AllPositive(all);
    assert forall i :: 0 <= i < |Recent(all)| ==> Recent(all)[i] == all[|all| - |Recent(all)| + i];
  }

  function Sampled(b: Bandwidth, snap: Snapshot, rtt: nat, now: int): (r: Bandwidth)
    requires Consistent(b)
    ensures Consistent(r)
  {
    var rate := Rate(b, snap, now);
    if rate == 0.0 then b else
    PushedConsistent(b, rate, rtt, now);
    Pushed(b, rate, rtt, now)
  }

  /** The minimum RTT never exceeds the newest sample, changes only to that sample, rises only once it is more than ten
      seconds old, is kept for ten seconds unless beaten, and is always replaced after them. */
  lemma MinRttKeeps(b: Bandwidth, rate: real, rtt: nat, now: int)
    ensures var p := Pushed(b, rate, rtt, now);
            && (rtt == 0 ==> p.minRTT == b.minRTT && p.minRTTTime == b.minRTTTime)
            && (rtt > 0 ==>
                  && 0 < p.minRTT <= rtt
                  && ((p.minRTT, p.minRTTTime) == (rtt, now) || (p.minRTT, p.minRTTTime) == (b.minRTT, b.minRTTTime))
                  && (p.minRTT > b.minRTT > 0 ==> now - b.minRTTTime > 10_000_000_000)
                  && (b.minRTT > 0 && rtt >= b.minRTT && now - b.minRTTTime <= 10_000_000_000 ==>
                        (p.minRTT, p.minRTTTime) == (b.minRTT, b.minRTTTime))
                  && (now - b.minRTTTime > 10_000_000_000 ==> (p.minRTT, p.minRTTTime) == (rtt, now)))
  {
  }

  predicate IsStable(b: Bandwidth) {
    |b.samples| >= MIN_STABLE_SAMPLES
  }

  function Ceil(x: real): (n: int)
    ensures (n - 1) as real < x <= n as real
  {
    var f := x.Floor;
    if f as real == x then f else f + 1
  }

  function Bdp(maxBW: real, minRTT: nat): real {
    maxBW * Seconds(minRTT)
  }

  function PacketsFor(bdp: real, packetSize: nat, gain: real): int
    requires packetSize > 0
  {
    Ceil(bdp / packetSize as real * gain)
  }

  /** The target window: BDP / packetSize * gain, rounded up, at least one packet; 0 without an estimate. */
  function TargetCwnd(b: Bandwidth, packetSize: nat, gain: real): (n: nat)
    requires packetSize > 0
    ensures n == 0 <==> b.maxBW == 0.0 || b.minRTT == 0
  {
    if b.maxBW == 0.0 || b.minRTT == 0 then 0 else
    var cwnd := PacketsFor(Bdp(b.maxBW, b.minRTT), packetSize, gain);
    if cwnd < 1 then 1 else cwnd
  }

  /** With an estimate the target is the least positive packet count that covers gain times the product of the rate
      and the minimum RTT in seconds. */
  lemma TargetCoversBdp(b: Bandwidth, packetSize: nat, gain: real)
    requires packetSize > 0 && b.maxBW != 0.0 && b.minRTT != 0
    ensures var n := TargetCwnd(b, packetSize, gain);
            var need := b.maxBW * (b.minRTT as real / 1_000_000_000.0) / packetSize as real * gain;
            n >= 1 && need <= n as real && (n > 1 ==> (n - 1) as real < need)
  {
    assert Seconds(b.minRTT) == b.minRTT as real / 1_000_000_000.0;
    hide Seconds;
    var need := Bdp(b.maxBW, b.minRTT) / packetSize as real * gain;
    assert PacketsFor(Bdp(b.maxBW, b.minRTT), packetSize, gain) == Ceil(need);
    hide Bdp, PacketsFor;
  }

  // ----- whole runs: the estimate is the maximum of the last 64 rates -----

  datatype Event = Bytes(count: nat, at: int) | Measure(snap: Snapshot, rtt: nat, at: int)

  function Run(start: int, events: seq<Event>): (b: Bandwidth)
    ensures Consistent(b)
  {
    if events == [] then NewBandwidth(start) else
    var before := Run(start, events[..|events| - 1]);
    match events[|events| - 1]
    case Bytes(n, at) => Delivered(before, n, at)
    case Measure(snap, rtt, at) => Sampled(before, snap, rtt, at)
  }

  function TotalBytes(events: seq<Event>): nat {
    if events == [] then 0 else
    TotalBytes(events[..|events| - 1]) +
    (match events[|events| - 1] case Bytes(n, _) => n case Measure(_, _, _) => 0)
  }

  /** When bytes were delivered last in the run, or when it began. */
  function LastDelivery(start: int, events: seq<Event>): int {
    if events == [] then start else
    match events[|events| - 1]
    case Bytes(n, at) => if n > 0 then at else LastDelivery(start, events[..|events| - 1])
    case Measure(_, _, _) => LastDelivery(start, events[..|events| - 1])
  }

  /** Every positive rate measured in the run, oldest first. */
  function Rates(start: int, events: seq<Event>): seq<real> {
    if events == [] then [] else
    var init := events[..|events| - 1];
    match events[|events| - 1]
    case Bytes(_, _) => Rates(start, init)
    case Measure(snap, _, at) =>
      var r := Rate(Run(start, init), snap, at);
      Rates(start, init) + if r == 0.0 then [] else [r]
  }

  lemma RecentOfRecent<T>(s: seq<T>, x: T)
    ensures Recent(Recent(s) + [x]) == Recent(s + [x])
  {
  }

  /** Over any run the counter is the sum of all acknowledged bytes and maxBW the largest of the last 64 rates. */
  lemma {:induction false} RunKeepsWindowMaximum(start: int, events: seq<Event>)
    ensures Run(start, events).delivered == TotalBytes(events)
    ensures Run(start, events).samples == Recent(Rates(start, events))
    ensures IsMax(Run(start, events).maxBW, Recent(Rates(start, events)))
  {
    hide Rate, IsMax, Peak, AllPositive;
    if events != [] {
      var init := events[..|events| - 1];
      RunKeepsWindowMaximum(start, init);
      match events[|events| - 1]
      case Bytes(_, _) =>
      case Measure(snap, rtt, at) =>
        var r := Rate(Run(start, init), snap, at);
        if r == 0.0 {
          assert Rates(start, init) + [] == Rates(start, init);
        } else {
          RecentOfRecent(Rates(start, init), r);
        }
    }
    PeakIsMax(Run(start, events).samples);
  }

  lemma LastSixtyFour(s: seq<real>)
    ensures Recent(s) == if |s| <= 64 then s else s[|s| - 64..]
  {
  }

  /** Over any run the counter is the sum of the bytes delivered and its time that of the last of them. */
  lemma {:induction false} RunCounts(start: int, events: seq<Event>)
    ensures Run(start, events).delivered == TotalBytes(events)
    ensures Run(start, events).deliveredAt == LastDelivery(start, events)
  {
    hide Rate, Peak, Recent;
    if events != [] {
      RunCounts(start, events[..|events| - 1]);
    }
  }

  /** A snapshot carries the delivery state it was taken in and its own time. */
  lemma SnapshotMeasures(b: Bandwidth, before: Bandwidth, t: int, at: int)
    ensures var r := Rate(b, SnapshotOf(before, t), at);
            var bytes := (b.delivered - before.delivered) as real;
            && (r > 0.0 <==> bytes > 0.0 && (at > t || at > before.deliveredAt))
            && (r > 0.0 ==> Measures(r, bytes, at - t, at - before.deliveredAt))
  {
    hide Rate, Measures;
    if Rate(b, SnapshotOf(before, t), at) > 0.0 {
      RateMeasures(b, SnapshotOf(before, t), at);
    }
  }

  /** The rate an acknowledgement measures over a whole run: for a packet sent at time t after the first i events, the
      bytes delivered since over the longer of the time since t and the time since the last delivery before t. */
  lemma PacketMeasures(start: int, events: seq<Event>, i: nat, t: int, at: int)
    requires i <= |events|
    ensures var before := events[..i];
            var r := Rate(Run(start, events), SnapshotOf(Run(start, before), t), at);
            var bytes := (TotalBytes(events) - TotalBytes(before)) as real;
            && (r > 0.0 <==> bytes > 0.0 && (at > t || at > LastDelivery(start, before)))
            && (r > 0.0 ==> Measures(r, bytes, at - t, at - LastDelivery(start, before)))
  {
    hide Rate, Run, TotalBytes, LastDelivery, Measures, SnapshotOf, Consistent;
    RunCounts(start, events);
    RunCounts(start, events[..i]);
    SnapshotMeasures(Run(start, events), Run(start, events[..i]), t, at);
  }

  // ----- the minimum RTT over whole runs -----

  /** The RTT samples that came with a positive rate, with their times, oldest first. */
  function RttSamples(start: int, events: seq<Event>): seq<(nat, int)> {
    if events == [] then [] else
    var init := events[..|events| - 1];
    match events[|events| - 1]
    case Bytes(_, _) => RttSamples(start, init)
    case Measure(snap, rtt, at) =>
      RttSamples(start, init) + if rtt > 0 && Rate(Run(start, init), snap, at) > 0.0 then [(rtt, at)] else []
  }

  /** Sample i is the minimum in force: no later sample was smaller or came more than ten seconds after it. */
  ghost predicate InForce(samples: seq<(nat, int)>, i: nat) {
    && i < |samples|
    && forall j :: i <= j < |samples| ==> samples[i].0 <= samples[j].0 && samples[j].1 - samples[i].1 <= 10_000_000_000
  }

  /** Over any run the minimum RTT is zero until there is a sample, and then one
      of the samples, no larger than any later one and at most ten seconds older than the last. */
  lemma {:induction false} MinRttIsInForce(start: int, events: seq<Event>)
    ensures var b, samples := Run(start, events), RttSamples(start, events);
            && (b.minRTT == 0 <==> samples == [])
            && (samples != [] ==> exists i: nat :: InForce(samples, i) && samples[i] == (b.minRTT, b.minRTTTime))
  {
    hide Rate, Pushed, Delivered;
    if events != [] {
      var init := events[..|events| - 1];
      MinRttIsInForce(start, init);
      match events[|events| - 1]
      case Bytes(n, at) => DeliveredKeepsMin(Run(start, init), n, at);
      case Measure(snap, rtt, at) =>
        var b, before := Run(start, init), RttSamples(start, init);
        var rate := Rate(b, snap, at);
        if rate > 0.0 {
          MinRttKeeps(b, rate, rtt, at);
          if rtt > 0 {
            MinRttNext(b, rate, rtt, at, before);
          }
        }
    }
  }

  lemma DeliveredKeepsMin(b: Bandwidth, n: nat, at: int)
    ensures Delivered(b, n, at).minRTT == b.minRTT && Delivered(b, n, at).minRTTTime == b.minRTTTime
  {
  }

  lemma MinRttNext(b: Bandwidth, rate: real, rtt: nat, at: int, before: seq<(nat, int)>)
    requires rtt > 0 && (b.minRTT == 0 <==> before == [])
    requires before != [] ==> exists i: nat :: InForce(before, i) && before[i] == (b.minRTT, b.minRTTTime)
    ensures var p, samples := Pushed(b, rate, rtt, at), before + [(rtt, at)];
            p.minRTT > 0 && exists i: nat :: InForce(samples, i) && samples[i] == (p.minRTT, p.minRTTTime)
  {
    MinRttKeeps(b, rate, rtt, at);
    hide Pushed;
    var p, samples := Pushed(b, rate, rtt, at), before + [(rtt, at)];
    if (p.minRTT, p.minRTTTime) == (rtt, at) {
      assert InForce(samples, |before|);
    } else {
      var i: nat :| InForce(before, i) && before[i] == (b.minRTT, b.minRTTTime);
      assert InForce(samples, i);
    }
  }

  class BandwidthEstimator {
    var delivered: nat
    var deliveredAt: int
    var samples: seq<real>
    var maxBW: real
    var minRTT: nat
    var minRTTTime: int

    ghost function View(): Bandwidth
      reads this
    {
      Bandwidth(delivered, deliveredAt, samples, maxBW, minRTT, minRTTTime)
    }

    ghost predicate Valid()
      reads this
    {
      Consistent(View())
    }

    constructor (now: int)
      ensures Valid() && View() == NewBandwidth(now)
    {
      delivered, deliveredAt, samples, maxBW, minRTT, minRTTTime := 0, now, [], 0.0, 0, 0;
    }

    method TakeSnapshot(now: int) returns (snap: Snapshot)
      ensures snap == SnapshotOf(View(), now)
    {
      snap := Snapshot(delivered, deliveredAt, now);
    }

    method RecordDelivered(count: nat, now: int)
      requires Valid()
      modifies this
      ensures Valid() && View() == Delivered(old(View()), count, now)
    {
      if count <= 0 {
        return;
      }
      delivered := delivered + count;
      deliveredAt := now;
    }

    method SampleRate(snap: Snapshot, rtt: nat, now: int)
      requires Valid()
      modifies this
      ensures Valid() && View() == Sampled(old(View()), snap, rtt, now)
    {
      var deliveredInterval := delivered - snap.delivered;
      if deliveredInterval <= 0 {
        return;
      }
      var sendElapsed, ackElapsed := now - snap.sentAt, now - snap.deliveredAt;
      var elapsed := sendElapsed;
      if ackElapsed > elapsed {
        elapsed := ackElapsed;
      }
      if elapsed <= 0 {
        return;
      }
      RatePositive(deliveredInterval as real, Seconds(elapsed));
      var rate := deliveredInterval as real / Seconds(elapsed);
      assert rate == Rate(View(), snap, now);
      Push(rate, rtt, now);
    }

    method CwndFromBDP(packetSize: nat, gain: real) returns (cwnd: nat)
      requires packetSize > 0
      ensures cwnd == TargetCwnd(View(), packetSize, gain)
    {
      if maxBW == 0.0 || minRTT == 0 {
        return 0;
      }
      var bdp := Bdp(maxBW, minRTT);
      var target := PacketsFor(bdp, packetSize, gain);
      cwnd := if target < 1 then 1 else target;
    }

    method LargestOf(rates: seq<real>) returns (m: real)
      ensures m == Peak(rates)
    {
      m := 0.0;
      for i := 0 to |rates|
        invariant m == Peak(rates[..i])
      {
        assert rates[..i + 1][..i] == rates[..i];
        if rates[i] > m {
          m := rates[i];
        }
      }
      assert rates[..|rates|] == rates;
    }

    method Push(rate: real, rtt: nat, now: int)
      requires Valid() && rate > 0.0
      modifies this
      ensures Valid() && View() == Pushed(old(View()), rate, rtt, now)
    {
      PushedConsistent(View(), rate, rtt, now);
      samples := samples + [rate];
      if |samples| > BW_WINDOW_SIZE {
        samples := samples[|samples| - BW_WINDOW_SIZE..];
      }
      maxBW := LargestOf(samples);

      if rtt > 0 {
        if minRTT == 0 || rtt < minRTT || now - minRTTTime > MIN_RTT_WINDOW {
          minRTT := rtt;
          minRTTTime := now;
        }
      }
    }
  }
}
