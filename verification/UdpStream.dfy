/** The writing side of a stream over the session (daemon/internal/transport/udp.go, udpStream.Write). */
module UdpStreams {
  import opened Bytes
  import opened SendBuffering
  import opened Ordering
  import opened ArqController
  import opened Session

  /** Packet i of the list carries sequence number first + i of the stream. */
  ghost predicate InSequence(ps: seq<Packet>, stream: nat, first: nat) {
    forall i :: 0 <= i < |ps| ==>
      ps[i].msgType == MSG_STREAM_DATA && ps[i].streamID == stream && ps[i].seqNum == first + i &&
      0 < |ps[i].data| <= MAX_PAYLOAD
  }

  function Payload(ps: seq<Packet>): bytes {
    if ps == [] then [] else Payload(ps[..|ps| - 1]) + ps[|ps| - 1].data
  }

  /** The packets carry the first n bytes of p in sequence, 1340 in each but the one that carries the end of p. */
  ghost predicate Spells(ps: seq<Packet>, stream: nat, first: nat, p: bytes, n: nat) {
    && InSequence(ps, stream, first) && n <= |p| && Payload(ps) == p[..n]
    && forall i :: 0 <= i < |ps| ==> |ps[i].data| == 1340 || (i == |ps| - 1 && n == |p|)
  }

  lemma SpellNothing(stream: nat, first: nat, p: bytes)
    ensures Spells([], stream, first, p, 0)
  {
  }

  lemma SpellNext(ps: seq<Packet>, stream: nat, first: nat, p: bytes, n: nat, end: nat, pktNum: nat)
    requires Spells(ps, stream, first, p, n) && n < end <= |p|
    requires end - n == MAX_PAYLOAD || (end - n < MAX_PAYLOAD && end == |p|)
    ensures Spells(ps + [Packet(MSG_STREAM_DATA, pktNum, stream, first + |ps|, p[n..end])], stream, first, p, end)
  {
    var pkt := Packet(MSG_STREAM_DATA, pktNum, stream, first + |ps|, p[n..end]);
    assert (ps + [pkt])[..|ps|] == ps;
    assert p[..end] == p[..n] + p[n..end];
  }

  class UdpStream {
    const arq: Controller
    const id: nat
    var seqNum: nat
    var closed: bool

    constructor (arq: Controller, id: nat)
      ensures this.arq == arq && this.id == id && seqNum == 0 && !closed
    {
      this.arq, this.id, seqNum, closed := arq, id, 0, false;
    }

    /** Cuts p into chunks of at most 1340 bytes and sends them under consecutive sequence numbers. Whatever
        happens, the chunks sent spell out the first `total` bytes of p. A chunk that fails has used up its
        sequence number; one that the socket refused is in the send buffer all the same, under the next packet
        number, and will reach the peer although `total` does not count it. */
    method Write(p: bytes, now: int) returns (total: nat, r: SendResult)
      requires arq.Valid() && arq.nextPktNum + |p| + 1 < UINT32_LIMIT
      modifies this`seqNum, arq`nextPktNum, arq`wire, arq.sendBuf, arq.cwnd
      ensures arq.Valid() && |arq.wire| >= |old(arq.wire)| && arq.wire[..|old(arq.wire)|] == old(arq.wire)
      ensures var sent := arq.wire[|old(arq.wire)|..];
              && Spells(sent, id, old(seqNum), p, total)
              && seqNum == old(seqNum) + |sent| + (if r.Sent? || closed then 0 else 1)
              && arq.nextPktNum == old(arq.nextPktNum) + |sent| + (if r.Refused? then 1 else 0)
      ensures r.Sent? ==> total == |p|
      ensures closed ==> total == 0 && r.SessionClosed?
      ensures r.Refused? ==> total < |p| && Holds(arq.nextPktNum, seqNum - 1, Take(p[total..], MAX_PAYLOAD))
    {
      hide Spells, Holds;
      SpellNothing(id, seqNum, p);
      total := 0;
      ghost var sent: seq<Packet> := [];
      if closed {
        assert arq.wire[|arq.wire|..] == sent;
        return 0, SessionClosed;
      }
      while total < |p|
        invariant arq.Valid() && total <= |p| && Spells(sent, id, old(seqNum), p, total)
        invariant arq.wire == old(arq.wire) + sent && seqNum == old(seqNum) + |sent|
        invariant |sent| <= total && arq.nextPktNum == old(arq.nextPktNum) + |sent|
      {
        var end := if |p| - total > MAX_PAYLOAD then total + MAX_PAYLOAD else |p|;
        assert p[total..end] == Take(p[total..], MAX_PAYLOAD);
        SpellNext(sent, id, old(seqNum), p, total, end, arq.nextPktNum + 1);
        ghost var pkt := Packet(MSG_STREAM_DATA, arq.nextPktNum + 1, id, seqNum, p[total..end]);
        r := SendChunk(p[total..end], now);
        if !r.Sent? {
          assert arq.wire[|old(arq.wire)|..] == sent;
          return;
        }
        sent := sent + [pkt];
        total := end;
      }
      assert arq.wire[|old(arq.wire)|..] == sent;
      r := Sent;
    }

    /** The send buffer holds this chunk of the stream under packet number n, never sent again yet. */
    ghost predicate Holds(n: nat, i: nat, chunk: bytes)
      reads this, arq.sendBuf
    {
      && n in arq.sendBuf.packets && !arq.sendBuf.packets[n].acked && arq.sendBuf.packets[n].retransmits == 0
      && arq.sendBuf.packets[n].packet == Packet(MSG_STREAM_DATA, n, id, i, chunk)
    }

    /** Takes the next sequence number and sends one chunk under it. */
    method SendChunk(chunk: bytes, now: int) returns (r: SendResult)
      requires arq.Valid() && arq.nextPktNum + 1 < UINT32_LIMIT
      modifies this`seqNum, arq`nextPktNum, arq`wire, arq.sendBuf, arq.cwnd
      ensures arq.Valid() && seqNum == old(seqNum) + 1
      ensures var stored := r.Sent? || r.Refused?;
              && arq.nextPktNum == old(arq.nextPktNum) + (if stored then 1 else 0)
              && (stored ==> Holds(arq.nextPktNum, old(seqNum), chunk))
      ensures arq.wire == old(arq.wire) +
                if r.Sent? then [Packet(MSG_STREAM_DATA, arq.nextPktNum, id, old(seqNum), chunk)] else []
    {
      var n := seqNum;
      seqNum := seqNum + 1;
      r := arq.Send(MSG_STREAM_DATA, id, n, chunk, now);
    }
  }
}
