/** Per-stream reordering on the receiving side (pkg/udp/arq/recv_buffer.go). */
module Reordering {
  import opened Bytes

  /** The fields of a RecvBuffer; `delivered` lists the payloads handed to deliverFn, oldest first. */
  datatype Reorder = Reorder(expected: nat, buffer: map<nat, bytes>, maxBuf: nat, delivered: seq<bytes>)

  function NewReorder(maxBuf: nat): Reorder {
    Reorder(0, map[], maxBuf, [])
  }

  /** Delivers buffered payloads as long as the expected one is present. */
  function Flush(r: Reorder): (f: Reorder)
    decreases r.buffer.Keys
  {
    if r.expected !in r.buffer then r else
    assert (r.buffer - {r.expected}).Keys == r.buffer.Keys - {r.expected};
    Flush(r.(expected := r.expected + 1,
             buffer := r.buffer - {r.expected},
             delivered := r.delivered + [r.buffer[r.expected]]))
  }

  predicate Full(r: Reorder) {
    |r.buffer| >= r.maxBuf
  }

  function Inserted(r: Reorder, seqNum: nat, data: bytes): Reorder {
    if seqNum < r.expected then r
    else if seqNum == r.expected then
      Flush(r.(expected := r.expected + 1, delivered := r.delivered + [data]))
    else if seqNum in r.buffer || Full(r) then r
    else r.(buffer := r.buffer[seqNum := data])
  }

  // ----- what the buffer stands for: a set of arrived positions of one stream -----

  /** The buffer holds or has delivered exactly the positions `got` of `stream`: everything below the
      first missing position was delivered, in order, and everything above it is held. */
  ghost predicate Represents(r: Reorder, stream: seq<bytes>, got: set<nat>) {
    && (forall i :: i in got ==> i < |stream|)
    && (forall i :: 0 <= i < r.expected ==> i in got)
    && r.expected !in got
    && r.expected <= |stream|
    && r.delivered == stream[..r.expected]
    && r.buffer.Keys == (set i | i in got && i > r.expected)
    && (forall i :: i in r.buffer ==> r.buffer[i] == stream[i])
  }

  /** As Represents, except that the expected position itself may already be held. */
  ghost predicate Flushing(r: Reorder, stream: seq<bytes>, got: set<nat>) {
    && (forall i :: i in got ==> i < |stream|)
    && (forall i :: 0 <= i < r.expected ==> i in got)
    && r.expected <= |stream|
    && r.delivered == stream[..r.expected]
    && r.buffer.Keys == (set i | i in got && i >= r.expected)
    && (forall i :: i in r.buffer ==> r.buffer[i] == stream[i])
  }

  lemma {:induction false} FlushRepresents(r: Reorder, stream: seq<bytes>, got: set<nat>)
    requires Flushing(r, stream, got)
    ensures Represents(Flush(r), stream, got) && Flush(r).maxBuf == r.maxBuf
    ensures Flush(r).expected >= r.expected && Flush(r).buffer.Keys <= r.buffer.Keys
    decreases r.buffer.Keys
  {
    if r.expected in r.buffer {
      var next := r.(expected := r.expected + 1, buffer := r.buffer - {r.expected},
                     delivered := r.delivered + [r.buffer[r.expected]]);
      assert next.buffer.Keys == r.buffer.Keys - {r.expected};
      assert stream[..next.expected] == stream[..r.expected] + [stream[r.expected]];
      FlushRepresents(next, stream, got);
    }
  }

  lemma InsertExpected(r: Reorder, stream: seq<bytes>, got: set<nat>)
    requires Represents(r, stream, got) && r.expected < |stream|
    ensures var s := Inserted(r, r.expected, stream[r.expected]);
            Represents(s, stream, got + {r.expected}) && s.maxBuf == r.maxBuf &&
            s.expected > r.expected && s.buffer.Keys <= r.buffer.Keys
  {
    var i := r.expected;
    var next := r.(expected := i + 1, delivered := r.delivered + [stream[i]]);
    assert stream[..i + 1] == stream[..i] + [stream[i]];
    assert (set k | k in got + {i} && k >= i + 1) == (set k | k in got && k > i);
    FlushRepresents(next, stream, got + {i});
  }

  lemma InsertAhead(r: Reorder, stream: seq<bytes>, got: set<nat>, i: nat)
    requires Represents(r, stream, got) && r.expected < i < |stream| && i !in got && !Full(r)
    ensures Represents(Inserted(r, i, stream[i]), stream, got + {i})
  {
    var s := r.(buffer := r.buffer[i := stream[i]]);
    assert s.buffer.Keys == r.buffer.Keys + {i};
    assert (set k | k in got + {i} && k > r.expected) == (set k | k in got && k > r.expected) + {i};
  }

  /** Inserting position i of the stream adds exactly i, unless i is new, out of order and the buffer is full. */
  lemma InsertRepresents(r: Reorder, stream: seq<bytes>, got: set<nat>, i: nat)
    requires Represents(r, stream, got) && i < |stream|
    requires i in got || i == r.expected || !Full(r)
    ensures var s := Inserted(r, i, stream[i]);
            Represents(s, stream, got + {i}) && s.maxBuf == r.maxBuf &&
            s.expected >= r.expected && s.buffer.Keys <= r.buffer.Keys + {i}
  {
    if i == r.expected {
      InsertExpected(r, stream, got);
    } else if i in got {
      assert got + {i} == got;
    } else {
      InsertAhead(r, stream, got, i);
    }
  }

  /** The only way a payload is refused: it is new, ahead of the gap, and the buffer is at its limit. */
  lemma RefusedIffFullAndNew(r: Reorder, stream: seq<bytes>, got: set<nat>, i: nat)
    requires Represents(r, stream, got) && i < |stream|
    ensures !Represents(Inserted(r, i, stream[i]), stream, got + {i}) <==>
              i !in got && i != r.expected && Full(r)
  {
    if i in got || i == r.expected || !Full(r) {
      InsertRepresents(r, stream, got, i);
    } else {
      assert i in got + {i} && i !in r.buffer;
    }
  }

  /** The buffer may be filled with a longer stream without changing what it represents. */
  lemma RepresentsLonger(r: Reorder, stream: seq<bytes>, longer: seq<bytes>, got: set<nat>)
    requires Represents(r, stream, got) && stream <= longer
    ensures Represents(r, longer, got)
  {
    assert stream[..r.expected] == longer[..r.expected];
  }

  class RecvBuffer {
    var expected: nat
    var buffer: map<nat, bytes>
    const maxBuf: nat
    var delivered: seq<bytes>

    ghost function View(): Reorder
      reads this
    {
      Reorder(expected, buffer, maxBuf, delivered)
    }

    constructor (maxBuf: nat)
      ensures View() == NewReorder(maxBuf)
    {
      this.maxBuf := maxBuf;
      expected, buffer, delivered := 0, map[], [];
    }

    method Insert(seqNum: nat, data: bytes)
      modifies this
      ensures View() == Inserted(old(View()), seqNum, data)
    {
      if seqNum < expected {
        return;
      }
      if seqNum == expected {
        delivered := delivered + [data];
        expected := expected + 1;
        while true
          invariant Flush(View()) == Inserted(old(View()), seqNum, data)
          decreases buffer.Keys
        {
          if expected !in buffer {
            break;
          }
          var d := buffer[expected];
          assert (buffer - {expected}).Keys == buffer.Keys - {expected};
          buffer := buffer - {expected};
          delivered := delivered + [d];
          expected := expected + 1;
        }
        return;
      }
      if seqNum in buffer {
        return;
      }
      if |buffer| >= maxBuf {
        return;
      }
      buffer := buffer[seqNum := data];
    }
  }
}
