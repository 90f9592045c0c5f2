/** Round-trip smoothing and the retransmission timeout (pkg/udp/arq/rtt.go); durations are nanoseconds. */
module RttEstimation {

  const MILLISECOND := 1_000_000
  const SECOND := 1_000_000_000
  const MIN_RTO := 100 * MILLISECOND
  const MAX_RTO := 500 * MILLISECOND
  const INITIAL_RTO := 300 * MILLISECOND

  datatype Rtt = Rtt(srtt: nat, rttvar: nat, rto: nat, init: bool)

  const FRESH_RTT := Rtt(0, 0, INITIAL_RTO, false)

  function ClampRto(d: int): (r: nat)
    ensures MIN_RTO <= r <= MAX_RTO
    ensures MIN_RTO <= d <= MAX_RTO ==> r == d
    ensures d < MIN_RTO ==> r == MIN_RTO
    ensures d > MAX_RTO ==> r == MAX_RTO
  {
    if d < MIN_RTO then MIN_RTO else if d > MAX_RTO then MAX_RTO else d
  }

  function Distance(a: nat, b: nat): nat {
    if a < b then b - a else a - b
  }

  function Updated(r: Rtt, sample: nat): Rtt {
    var (srtt, rttvar) :=
      if !r.init then (sample, sample / 2)
      else (r.srtt * 7 / 8 + sample / 8, r.rttvar * 3 / 4 + Distance(r.srtt, sample) / 4);
    Rtt(srtt, rttvar, ClampRto(srtt + 4 * rttvar), true)
  }

  function BackedOff(r: Rtt): Rtt {
    r.(rto := ClampRto(r.rto * 2))
  }

  /** Section 2 of RFC 6298 up to integer rounding: SRTT' = 7/8 SRTT + 1/8 R' and RTTVAR' = 3/4 RTTVAR + 1/4 |SRTT - R'|
      with the old SRTT, each low by less than two units, and RTO = SRTT + 4 RTTVAR between the bounds. */
  lemma UpdateFollowsRfc6298(r: Rtt, sample: nat)
    ensures var u := Updated(r, sample);
            && u.init
            && (!r.init ==> u.srtt == sample && sample - 1 <= 2 * u.rttvar <= sample)
            && (r.init ==>
                  && 7 * r.srtt + sample - 16 < 8 * u.srtt <= 7 * r.srtt + sample
                  && var deviation := if r.srtt < sample then sample - r.srtt else r.srtt - sample;
                     3 * r.rttvar + deviation - 8 < 4 * u.rttvar <= 3 * r.rttvar + deviation)
            && (u.rto == u.srtt + 4 * u.rttvar || u.rto == MIN_RTO > u.srtt + 4 * u.rttvar ||
                u.rto == MAX_RTO < u.srtt + 4 * u.rttvar)
  {
  }

  // ----- whole runs -----

  datatype Event = Sample(rtt: nat) | Timeout

  function Run(events: seq<Event>): Rtt {
    if events == [] then FRESH_RTT else
    var before := Run(events[..|events| - 1]);
    match events[|events| - 1]
    case Sample(s) => Updated(before, s)
    case Timeout => BackedOff(before)
  }

  ghost predicate SamplesWithin(events: seq<Event>, lo: nat, hi: nat) {
    forall e :: e in events && e.Sample? ==> lo <= e.rtt <= hi
  }

  function Max(a: int, b: int): int {
    if a < b then b else a
  }

  function Min(a: int, b: int): int {
    if a < b then a else b
  }

  ghost predicate Bounded(r: Rtt, lo: nat, hi: nat) {
    && MIN_RTO <= r.rto <= MAX_RTO
    && (r.init ==> lo / 8 * 8 <= r.srtt <= hi && r.rttvar <= Max(hi / 2, hi - lo / 8 * 8))
  }

  lemma UpdateBounded(r: Rtt, sample: nat, lo: nat, hi: nat)
    requires Bounded(r, lo, hi) && lo <= sample <= hi
    ensures Bounded(Updated(r, sample), lo, hi)
  {
    if r.init {
      var floor := lo / 8 * 8;
      assert r.srtt * 7 / 8 + sample / 8 <= hi;
      assert r.srtt * 7 / 8 >= lo / 8 * 7;
      assert Distance(r.srtt, sample) <= hi - floor;
      var v := Max(hi / 2, hi - floor);
      assert r.rttvar * 3 / 4 + Distance(r.srtt, sample) / 4 <= v;
    }
  }

  /** For any mix of samples in [lo, hi] and timeouts, the integer smoothing stays inside its bounds and
      the timeout stays between 100 and 500 ms. */
  lemma {:induction false} RunBounded(events: seq<Event>, lo: nat, hi: nat)
    requires SamplesWithin(events, lo, hi)
    ensures Bounded(Run(events), lo, hi)
  {
    if events != [] {
      var init, last := events[..|events| - 1], events[|events| - 1];
      assert forall e :: e in init ==> e in events;
      RunBounded(init, lo, hi);
      if last.Sample? {
        assert last in events;
        UpdateBounded(Run(init), last.rtt, lo, hi);
      }
    }
  }

  /** After any history one more timeout doubles the RTO, up to half a second, and leaves the smoothed times alone.
      Before any event the RTO is 300 ms. */
  lemma TimeoutDoubles(events: seq<Event>)
    ensures Run([]).rto == 300_000_000 && !Run([]).init
    ensures var r, t := Run(events), Run(events + [Timeout]);
            && t.rto == (if 2 * r.rto > 500_000_000 then 500_000_000 else 2 * r.rto)
            && t.srtt == r.srtt && t.rttvar == r.rttvar && t.init == r.init
  {
    assert (events + [Timeout])[..|events|] == events;
    RunBounded(events, 0, MaxSample(events));
  }

  /** Every timeout doubles the timeout until it reaches the cap; three in a row always reach it. */
  lemma ThreeTimeoutsReachTheCap(events: seq<Event>)
    ensures Run(events + [Timeout, Timeout, Timeout]).rto == MAX_RTO
  {
    var one, two, three := events + [Timeout], events + [Timeout, Timeout], events + [Timeout, Timeout, Timeout];
    assert one[..|one| - 1] == events && two[..|two| - 1] == one && three[..|three| - 1] == two;
    assert Run(one) == BackedOff(Run(events)) && Run(two) == BackedOff(Run(one)) && Run(three) == BackedOff(Run(two));
    RunBounded(events, 0, MaxSample(events));
  }

  function MaxSample(events: seq<Event>): (m: nat)
    ensures SamplesWithin(events, 0, m)
  {
    if events == [] then 0 else
    var rest := MaxSample(events[1..]);
    assert forall e :: e in events <==> e == events[0] || e in events[1..];
    if events[0].Sample? then Max(events[0].rtt, rest) else rest
  }

  class RTTEstimator {
    var srtt: nat
    var rttvar: nat
    var rto: nat
    var init: bool

    ghost function View(): Rtt
      reads this
    {
      Rtt(srtt, rttvar, rto, init)
    }

    constructor ()
      ensures View() == FRESH_RTT
    {
      srtt, rttvar, rto, init := 0, 0, INITIAL_RTO, false;
    }

    method Update(sample: nat)
      modifies this
      ensures View() == Updated(old(View()), sample)
    {
      if !init {
        srtt := sample;
        rttvar := sample / 2;
        init := true;
      } else {
        var diff: int := srtt - sample;
        if diff < 0 {
          diff := -diff;
        }
        rttvar := rttvar * 3 / 4 + diff / 4;
        srtt := srtt * 7 / 8 + sample / 8;
      }
      rto := srtt + 4 * rttvar;
      rto := ClampRto(rto);
    }

    method Backoff()
      modifies this
      ensures View() == BackedOff(old(View()))
    {
      rto := ClampRto(rto * 2);
    }
  }
}
