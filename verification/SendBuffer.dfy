/** Sent but not yet cumulatively acknowledged packets (pkg/udp/arq/send_buffer.go). */
module SendBuffering {
  import opened Bytes
  import opened AckWire
  import opened Ordering
  import opened BandwidthEstimation

  const MAX_RETRANSMITS := 15

  const MSG_STREAM_OPEN: byte := 2
  const MSG_STREAM_DATA: byte := 3
  const MSG_STREAM_CLOSE: byte := 4

  /** The fields of pkgudp.Packet that matter to the session (the codec is an inverse pair that never fails). */
  datatype Packet = Packet(msgType: byte, pktNum: nat, streamID: nat, seqNum: nat, data: bytes)

  datatype SentPacket = SentPacket(
    packet: Packet, sentAt: int, lastSentAt: int, retransmits: nat, acked: bool, delivery: Snapshot)

  type Packets = map<nat, SentPacket>

  function NewlySent(p: Packet, now: int, snap: Snapshot): SentPacket {
    SentPacket(p, now, now, 0, false, snap)
  }

  function Unacked(m: Packets): set<nat> {
    set k | k in m && !m[k].acked
  }

  function AckedCumulatively(m: Packets, cumAck: nat): Packets {
    map k | k in m && k > cumAck :: m[k]
  }

  function AckedSelectively(m: Packets, k: nat): Packets {
    if k in m then m[k := m[k].(acked := true)] else m
  }

  function Resent(m: Packets, k: nat, now: int): Packets {
    if k in m then m[k := m[k].(lastSentAt := now, retransmits := m[k].retransmits + 1)] else m
  }

  ghost predicate IsExpired(m: Packets, k: nat, now: int, rto: nat) {
    k in m && !m[k].acked && now - m[k].lastSentAt > rto
  }

  ghost function ExpiredSet(m: Packets, now: int, rto: nat): set<nat> {
    set k | k in m && IsExpired(m, k, now, rto)
  }

  // ----- what one acknowledgement does to the buffer -----

  ghost function NewlyAcked(m: Packets, a: Ack): set<nat>
    requires a.Valid()
  {
    set k | k in Unacked(m) && (k <= a.cumAck || a.IsReceived(k))
  }

  ghost function AckedBy(m: Packets, a: Ack): Packets
    requires a.Valid()
  {
    map k | k in m && k > a.cumAck :: if a.IsReceived(k) then m[k].(acked := true) else m[k]
  }

  /** The un-acknowledged set loses exactly the numbers the acknowledgement names. */
  lemma AckedByUnacked(m: Packets, a: Ack)
    requires a.Valid()
    ensures Unacked(AckedBy(m, a)) == Unacked(m) - NewlyAcked(m, a)
    ensures NewlyAcked(m, a) <= Unacked(m)
    ensures |Unacked(AckedBy(m, a))| + |NewlyAcked(m, a)| == |Unacked(m)|
  {
    assert Unacked(m) == Unacked(AckedBy(m, a)) + NewlyAcked(m, a);
    assert Unacked(AckedBy(m, a)) !! NewlyAcked(m, a);
  }

  /** What one acknowledgement does, written out: packets up to its cumulative number go, the selected ones are marked,
      nothing else changes, and those named that were not marked before count as newly acknowledged. */
  lemma AckedByExactly(m: Packets, a: Ack, k: nat)
    requires a.Valid()
    ensures k in AckedBy(m, a) <==> k in m && k > a.cumAck
    ensures k in AckedBy(m, a) ==> AckedBy(m, a)[k] == m[k].(acked := m[k].acked || k in a.Selected())
    ensures k in NewlyAcked(m, a) <==> k in m && !m[k].acked && (k <= a.cumAck || k in a.Selected())
  {
    SelectedMeansReceived(a, k);
  }

  lemma SelectedMeansReceived(a: Ack, k: nat)
    requires a.Valid()
    ensures k in a.Selected() <==> a.IsReceived(k)
  {
  }

  // ----- retransmission changes only the timing fields -----

  ghost predicate SameButTiming(m: Packets, m': Packets) {
    && m.Keys == m'.Keys
    && forall k :: k in m ==> m'[k].packet == m[k].packet && m'[k].acked == m[k].acked &&
                              m'[k].sentAt == m[k].sentAt && m'[k].delivery == m[k].delivery
  }

  function ResentAll(m: Packets, ks: seq<nat>, now: int): Packets
    decreases |ks|
  {
    if ks == [] then m else ResentAll(Resent(m, ks[0], now), ks[1..], now)
  }

  lemma {:induction false} ResentAllSame(m: Packets, ks: seq<nat>, now: int)
    ensures SameButTiming(m, ResentAll(m, ks, now))
    decreases |ks|
  {
    if ks != [] {
      ResentAllSame(Resent(m, ks[0], now), ks[1..], now);
    }
  }

  lemma {:induction false} ResentAllAppend(m: Packets, ks: seq<nat>, k: nat, now: int)
    ensures ResentAll(m, ks + [k], now) == Resent(ResentAll(m, ks, now), k, now)
    decreases |ks|
  {
    if ks == [] {
      assert [k][1..] == [];
    } else {
      assert (ks + [k])[1..] == ks[1..] + [k];
      ResentAllAppend(Resent(m, ks[0], now), ks[1..], k, now);
    }
  }

  /** A packet outside the batch keeps its entry; one inside it is stamped once per occurrence. */
  lemma {:induction false} ResentAllUntouched(m: Packets, ks: seq<nat>, now: int, k: nat)
    requires k in m && k !in ks
    ensures k in ResentAll(m, ks, now) && ResentAll(m, ks, now)[k] == m[k]
    decreases |ks|
  {
    if ks != [] {
      assert ks[0] in ks && forall x :: x in ks[1..] ==> x in ks;
      ResentAllUntouched(Resent(m, ks[0], now), ks[1..], now, k);
    }
  }

  lemma SameButTimingUnacked(m: Packets, m': Packets)
    requires SameButTiming(m, m')
    ensures Unacked(m) == Unacked(m')
  {
  }

  class SendBuffer {
    var packets: Packets
    const maxSize: nat

    constructor (maxSize: nat)
      ensures packets == map[] && this.maxSize == maxSize
    {
      packets := map[];
      this.maxSize := maxSize;
    }

    /** Stores a new packet; the configured capacity is not consulted. */
    method Add(p: Packet, snap: Snapshot, now: int)
      modifies this
      ensures packets == old(packets)[p.pktNum := NewlySent(p, now, snap)]
    {
      packets := packets[p.pktNum := SentPacket(p, now, now, 0, false, snap)];
    }

    method AckCumulative(cumAck: nat) returns (count: nat)
      modifies this
      ensures packets == AckedCumulatively(old(packets), cumAck)
      ensures count == |set k | k in Unacked(old(packets)) && k <= cumAck|
    {
      if |packets| == 0 {
        assert Unacked(packets) == {};
        return 0;
      }
      count := 0;
      var todo := packets.Keys;
      while todo != {}
        invariant todo <= old(packets).Keys
        invariant packets == (map k | k in old(packets) && (k in todo || k > cumAck) :: old(packets)[k])
        invariant count == |set k | k in Unacked(old(packets)) && k <= cumAck && k !in todo|
        decreases todo
      {
        var pktNum :| pktNum in todo;
        ghost var before := set k | k in Unacked(old(packets)) && k <= cumAck && k !in todo;
        todo := todo - {pktNum};
        ghost var after := set k | k in Unacked(old(packets)) && k <= cumAck && k !in todo;
        if pktNum <= cumAck {
          if !packets[pktNum].acked {
            count := count + 1;
            assert after == before + {pktNum};
          } else {
            assert after == before;
          }
          packets := packets - {pktNum};
        } else {
          assert after == before;
        }
      }
      assert (set k | k in Unacked(old(packets)) && k <= cumAck && k !in todo) ==
             (set k | k in Unacked(old(packets)) && k <= cumAck);
    }

    method AckSelective(pktNum: nat)
      modifies this
      ensures packets == AckedSelectively(old(packets), pktNum)
    {
      if pktNum in packets {
        packets := packets[pktNum := packets[pktNum].(acked := true)];
      }
    }

    /** The expired packets by ascending number. */
    method Expired(rto: nat, now: int) returns (expired: seq<nat>)
      ensures expired == Sorted(ExpiredSet(packets, now, rto))
    {
      if |packets| == 0 {
        assert ExpiredSet(packets, now, rto) == {};
        return [];
      }
      var found: seq<nat> := [];
      var todo := packets.Keys;
      while todo != {}
        invariant todo <= packets.Keys
        invariant Elements(found) == (set k | k in ExpiredSet(packets, now, rto) && k !in todo)
        invariant forall i, j :: 0 <= i < j < |found| ==> found[i] != found[j]
        decreases todo
      {
        var pktNum :| pktNum in todo;
        assert pktNum !in Elements(found);
        assert Elements(found + [pktNum]) == Elements(found) + {pktNum};
        todo := todo - {pktNum};
        if !packets[pktNum].acked && now - packets[pktNum].lastSentAt > rto {
          found := found + [pktNum];
        }
      }
      assert Elements(found) == ExpiredSet(packets, now, rto);
      expired := SortByNumber(found);
      ListingIsSorted(expired, ExpiredSet(packets, now, rto));
    }

    method MarkResent(pktNum: nat, now: int)
      modifies this
      ensures packets == Resent(old(packets), pktNum, now)
    {
      if pktNum !in packets {
        return;
      }
      var p := packets[pktNum];
      packets := packets[pktNum := p.(lastSentAt := now, retransmits := p.retransmits + 1)];
    }

    method IsMaxRetransmits(pktNum: nat) returns (r: bool)
      ensures r <==> pktNum in packets && packets[pktNum].retransmits >= MAX_RETRANSMITS
    {
      r := pktNum in packets && packets[pktNum].retransmits >= MAX_RETRANSMITS;
    }

    method FirstUnacked() returns (first: Option<nat>)
      ensures first.None? <==> Unacked(packets) == {}
      ensures first.Some? ==> IsLeast(first.value, Unacked(packets))
    {
      first := None;
      var todo := packets.Keys;
      while todo != {}
        invariant todo <= packets.Keys
        invariant first.None? ==> forall k :: k in packets && !packets[k].acked ==> k in todo
        invariant first.Some? ==> first.value in Unacked(packets) &&
                                  forall k :: k in packets && !packets[k].acked && k !in todo ==> first.value <= k
        decreases todo
      {
        var pktNum :| pktNum in todo;
        todo := todo - {pktNum};
        if packets[pktNum].acked {
          continue;
        }
        if first.None? || pktNum < first.value {
          first := Some(pktNum);
        }
      }
    }
  }

  /** Insertion sort standing for sort.Slice with the PktNum comparison. */
  method SortByNumber(s: seq<nat>) returns (r: seq<nat>)
    requires forall i, j :: 0 <= i < j < |s| ==> s[i] != s[j]
    ensures Ascending(r) && Elements(r) == Elements(s)
  {
    r := [];
    for i := 0 to |s|
      invariant Ascending(r) && Elements(r) == Elements(s[..i])
    {
      assert s[..i + 1] == s[..i] + [s[i]];
      InElements(r, s[i]);
      r := InsertByNumber(r, s[i]);
    }
    assert s[..|s|] == s;
  }

  lemma InsertedListing(s: seq<nat>, i: nat, x: nat)
    requires Ascending(s) && i <= |s|
    requires (forall j :: 0 <= j < i ==> s[j] < x) && forall j :: i <= j < |s| ==> x < s[j]
    ensures Ascending(s[..i] + [x] + s[i..]) && Elements(s[..i] + [x] + s[i..]) == Elements(s) + {x}
  {
    var r := s[..i] + [x] + s[i..];
    assert s == s[..i] + s[i..];
    assert forall y :: y in r <==> y in s[..i] || y == x || y in s[i..];
  }

  method InsertByNumber(s: seq<nat>, x: nat) returns (r: seq<nat>)
    requires Ascending(s) && x !in s
    ensures Ascending(r) && Elements(r) == Elements(s) + {x}
  {
    var i := 0;
    while i < |s| && s[i] < x
      invariant 0 <= i <= |s| && forall j :: 0 <= j < i ==> s[j] < x
    {
      i := i + 1;
    }
    assert forall j :: i <= j < |s| ==> s[j] in s && x < s[j];
    InsertedListing(s, i, x);
    r := s[..i] + [x] + s[i..];
  }
}
