/** The receiver's packet-number bookkeeping (pkg/udp/arq/ack_state.go). */
module AckTracking {
  import opened Bytes
  import opened AckWire

  const DELAYED_ACK_THRESHOLD := 2

  /** The fields of an AckState. `received` holds the numbers above cumAck only. */
  datatype AckLog = AckLog(cumAck: nat, received: set<nat>, pktsSinceAck: nat, immediateAck: bool, dupCount: nat)

  const FRESH_LOG := AckLog(0, {}, 0, false, 0)

  /** Removes the run cumAck+1, cumAck+2, ... from `received`, giving the last number of the run. */
  function Advance(cumAck: nat, received: set<nat>): (r: (nat, set<nat>))
    ensures r.0 >= cumAck
    decreases received
  {
    if cumAck + 1 in received then Advance(cumAck + 1, received - {cumAck + 1}) else (cumAck, received)
  }

  function Record(log: AckLog, pktNum: nat): (r: AckLog)
    ensures r.cumAck >= log.cumAck
  {
    if pktNum <= log.cumAck then log.(pktsSinceAck := log.pktsSinceAck + 1) else
    var (cum, rest) := Advance(log.cumAck, log.received + {pktNum});
    AckLog(cum, rest, log.pktsSinceAck + 1,
           log.immediateAck || pktNum > cum,
           if pktNum > cum then log.dupCount + 1 else if cum > log.cumAck then 0 else log.dupCount)
  }

  function Sent(log: AckLog): AckLog {
    log.(pktsSinceAck := 0, immediateAck := false)
  }

  // ----- the plain set the bookkeeping stands for -----

  /** `log` describes exactly the set `seen` of packet numbers that have arrived. */
  ghost predicate Tracks(log: AckLog, seen: set<nat>) {
    && (forall k :: 1 <= k <= log.cumAck ==> k in seen)
    && log.cumAck + 1 !in seen
    && log.received == (set k | k in seen && k > log.cumAck)
  }

  lemma {:induction false} AdvanceTracks(cum: nat, received: set<nat>, seen: set<nat>)
    requires forall k :: 1 <= k <= cum ==> k in seen
    requires received == (set k | k in seen && k > cum)
    ensures var (c, rest) := Advance(cum, received);
            && (forall k :: 1 <= k <= c ==> k in seen)
            && c + 1 !in seen
            && rest == (set k | k in seen && k > c)
    decreases received
  {
    if cum + 1 in received {
      assert received - {cum + 1} == (set k | k in seen && k > cum + 1);
      AdvanceTracks(cum + 1, received - {cum + 1}, seen);
    }
  }

  /** One arrival refines adding one number to the set. */
  lemma RecordTracks(log: AckLog, seen: set<nat>, pktNum: nat)
    requires Tracks(log, seen) && pktNum > 0
    ensures Tracks(Record(log, pktNum), seen + {pktNum})
  {
    if pktNum <= log.cumAck {
      assert seen + {pktNum} == seen;
    } else {
      assert log.received + {pktNum} == (set k | k in seen + {pktNum} && k > log.cumAck);
      AdvanceTracks(log.cumAck, log.received + {pktNum}, seen + {pktNum});
    }
  }

  /** A set determines its log: cumAck is the only number whose prefix is complete and whose successor is missing. */
  lemma TracksUnique(a: AckLog, b: AckLog, seen: set<nat>)
    requires Tracks(a, seen) && Tracks(b, seen)
    ensures a.cumAck == b.cumAck && a.received == b.received
  {
    assert a.cumAck < b.cumAck ==> a.cumAck + 1 in seen;
    assert b.cumAck < a.cumAck ==> b.cumAck + 1 in seen;
  }

  // ----- whole runs -----

  datatype Event = Arrived(pktNum: nat) | AckWentOut

  function Run(events: seq<Event>): (log: AckLog) {
    if events == [] then FRESH_LOG else
    var before := Run(events[..|events| - 1]);
    match events[|events| - 1]
    case Arrived(n) => if n > 0 then Record(before, n) else before
    case AckWentOut => Sent(before)
  }

  ghost function ArrivedNumbers(events: seq<Event>): set<nat> {
    set e | e in events && e.Arrived? && e.pktNum > 0 :: e.pktNum
  }

  /** After any sequence of arrivals cumAck is the end of the longest complete prefix 1..n of what arrived. */
  lemma {:induction false} RunTracksArrivals(events: seq<Event>)
    ensures Tracks(Run(events), ArrivedNumbers(events))
  {
    if events != [] {
      var init, last := events[..|events| - 1], events[|events| - 1];
      RunTracksArrivals(init);
      assert events == init + [last];
      match last
      case Arrived(n) =>
        if n > 0 {
          RecordTracks(Run(init), ArrivedNumbers(init), n);
          assert ArrivedNumbers(events) == ArrivedNumbers(init) + {n};
        } else {
          assert ArrivedNumbers(events) == ArrivedNumbers(init);
        }
      case AckWentOut =>
        assert ArrivedNumbers(events) == ArrivedNumbers(init);
    }
  }

  // ----- when an acknowledgement is asked for -----

  /** Every number from 1 to n is in the set. */
  ghost predicate CompleteUpTo(arrived: set<nat>, n: nat) {
    forall k :: 1 <= k <= n ==> k in arrived
  }

  /** The arrivals since the last acknowledgement went out. */
  function ArrivalsSince(events: seq<Event>): nat {
    if events == [] || events[|events| - 1].AckWentOut? then 0
    else ArrivalsSince(events[..|events| - 1]) + if events[|events| - 1].pktNum > 0 then 1 else 0
  }

  /** Since the last acknowledgement went out, a number arrived while a lower one was missing. */
  ghost predicate GapSince(events: seq<Event>) {
    events != [] && events[|events| - 1].Arrived? &&
    (GapSince(events[..|events| - 1]) ||
     (events[|events| - 1].pktNum > 0 && !CompleteUpTo(ArrivedNumbers(events), events[|events| - 1].pktNum)))
  }

  /** How many numbers arrived above a gap since an arrival last moved the complete prefix on. */
  ghost function AboveGap(events: seq<Event>): nat {
    if events == [] then 0 else
    var init, e := events[..|events| - 1], events[|events| - 1];
    if e.AckWentOut? || CompleteUpTo(ArrivedNumbers(init), e.pktNum) then AboveGap(init)
    else if CompleteUpTo(ArrivedNumbers(events), e.pktNum) then 0
    else AboveGap(init) + 1
  }

  /** What one arrival does to the three counters. */
  lemma RecordCounts(log: AckLog, seen: set<nat>, n: nat)
    requires Tracks(log, seen) && n > 0
    ensures var after := Record(log, n);
            && after.pktsSinceAck == log.pktsSinceAck + 1
            && (after.immediateAck <==> log.immediateAck || !CompleteUpTo(seen + {n}, n))
            && after.dupCount == if CompleteUpTo(seen, n) then log.dupCount
                                 else if CompleteUpTo(seen + {n}, n) then 0 else log.dupCount + 1
  {
    RecordTracks(log, seen, n);
    var after := Record(log, n);
    assert CompleteUpTo(seen, n) <==> n <= log.cumAck by {
      assert n > log.cumAck ==> log.cumAck + 1 !in seen;
    }
    assert CompleteUpTo(seen + {n}, n) <==> n <= after.cumAck by {
      assert n > after.cumAck ==> after.cumAck + 1 !in seen + {n};
    }
  }

  /** Over any run the triggers say what the arrivals say: how many came since the last acknowledgement, whether one of
      them left a gap below it, and how many did since the prefix last moved on. */
  lemma {:induction false} TriggersAreExact(events: seq<Event>)
    ensures var log := Run(events);
            && log.pktsSinceAck == ArrivalsSince(events)
            && (log.immediateAck <==> GapSince(events))
            && log.dupCount == AboveGap(events)
  {
    hide CompleteUpTo, Record;
    if events != [] {
      var init, last := events[..|events| - 1], events[|events| - 1];
      TriggersAreExact(init);
      assert events == init + [last];
      if last.Arrived? && last.pktNum > 0 {
        RunTracksArrivals(init);
        hide Tracks;
        assert ArrivedNumbers(events) == ArrivedNumbers(init) + {last.pktNum};
        RecordCounts(Run(init), ArrivedNumbers(init), last.pktNum);
      } else if last.Arrived? {
        NothingBelowOne(ArrivedNumbers(init));
      }
    }
  }

  lemma NothingBelowOne(arrived: set<nat>)
    ensures CompleteUpTo(arrived, 0)
  {
  }

  // ----- the acknowledgement built from the log -----

  /** `ack` reports exactly what `log` knows inside its 256-wide window. */
  ghost predicate Reports(ack: Ack, log: AckLog) {
    && ack.Valid()
    && ack.cumAck == log.cumAck
    && ack.Selected() == (set k | k in log.received && log.cumAck < k <= log.cumAck + SACK_WIDTH)
  }

  /** What the peer decodes tells it, for every number up to cumAck+256, whether that number arrived. */
  lemma DecodedAckIsExact(ack: Ack, log: AckLog, seen: set<nat>, k: nat)
    requires Tracks(log, seen) && Reports(ack, log) && 1 <= k <= log.cumAck + SACK_WIDTH
    ensures Decoded(Encoded(ack)).Ok?
    ensures var a := Decoded(Encoded(ack)).value;
            a.Valid() && (k <= a.cumAck || a.IsReceived(k) <==> k in seen)
  {
    DecodeInvertsEncode(ack, []);
    assert Encoded(ack) + [] == Encoded(ack);
    if k > ack.cumAck {
      assert k in ack.Selected() <==> k in log.received;
    }
  }

  /** The receiver's object; `seen` is the set it refines. */
  class AckState {
    var received: set<nat>
    var cumAck: nat
    var pktsSinceAck: nat
    var immediateAck: bool
    var dupCount: nat
    ghost var seen: set<nat>

    ghost predicate Valid()
      reads this
    {
      Tracks(View(), seen) && (forall k :: k in seen ==> 0 < k < UINT32_LIMIT)
    }

    ghost function View(): AckLog
      reads this
    {
      AckLog(cumAck, received, pktsSinceAck, immediateAck, dupCount)
    }

    constructor ()
      ensures Valid() && View() == FRESH_LOG && seen == {}
    {
      received, cumAck, pktsSinceAck, immediateAck, dupCount := {}, 0, 0, false, 0;
      seen := {};
    }

    method RecordReceived(pktNum: nat)
      requires Valid() && 0 < pktNum < UINT32_LIMIT
      modifies this
      ensures Valid() && View() == Record(old(View()), pktNum) && seen == old(seen) + {pktNum}
    {
      RecordTracks(View(), seen, pktNum);
      seen := seen + {pktNum};
      if pktNum <= cumAck {
        pktsSinceAck := pktsSinceAck + 1;
        return;
      }
      received := received + {pktNum};
      pktsSinceAck := pktsSinceAck + 1;

      var prevCumAck := cumAck;
      while cumAck + 1 in received
        invariant cumAck >= prevCumAck
        invariant Advance(cumAck, received) == old(Advance(cumAck, received + {pktNum}))
        invariant pktsSinceAck == old(pktsSinceAck) + 1 && immediateAck == old(immediateAck)
        invariant dupCount == old(dupCount) && seen == old(seen) + {pktNum}
        decreases received
      {
        cumAck := cumAck + 1;
        received := received - {cumAck};
      }

      if pktNum > cumAck {
        immediateAck := true;
        dupCount := dupCount + 1;
      } else if cumAck > prevCumAck {
        dupCount := 0;
      }
    }

    method BuildAck() returns (ack: AckData)
      requires Valid()
      ensures fresh(ack) && fresh(ack.bitmap) && ack.Valid()
      ensures Reports(ack.View(), View())
    {
      assert cumAck < UINT32_LIMIT by {
        assert cumAck > 0 ==> cumAck in seen;
      }
      ack := new AckData(cumAck);
      var todo := received;
      while todo != {}
        invariant todo <= received
        invariant ack.Valid() && ack.cumAck == cumAck && fresh(ack) && fresh(ack.bitmap)
        invariant ack.View().Selected() == (set k | k in received - todo && cumAck < k <= cumAck + SACK_WIDTH)
        decreases todo
      {
        var pktNum :| pktNum in todo;
        MarkSelected(ack.View(), pktNum);
        ack.SetReceived(pktNum);
        todo := todo - {pktNum};
      }
    }

    method NeedsImmediateAck() returns (r: bool)
      ensures r == View().immediateAck
    {
      r := immediateAck;
    }

    method NeedsDelayedAck() returns (r: bool)
      ensures r <==> View().pktsSinceAck >= DELAYED_ACK_THRESHOLD
    {
      r := pktsSinceAck >= DELAYED_ACK_THRESHOLD;
    }

    method AckSent()
      requires Valid()
      modifies this
      ensures Valid() && View() == Sent(old(View())) && seen == old(seen)
    {
      pktsSinceAck := 0;
      immediateAck := false;
    }
  }
}
