/** The acknowledgement datagram of the ARQ session: a cumulative number plus a
    256-bit selective bitmap, and its 36-byte wire form (pkg/udp/arq/ack.go). */
module AckWire {
  import opened Bytes

  const BITMAP_BYTES := 32
  const SACK_WIDTH := 256
  const ACK_DATA_SIZE := 36

  /** The value of an AckData. Bit i of the bitmap stands for packet cumAck + 1 + i. */
  datatype Ack = Ack(cumAck: nat, bitmap: bytes) {

    predicate Valid() {
      |bitmap| == BITMAP_BYTES && cumAck < UINT32_LIMIT
    }

    predicate IsReceived(pktNum: nat)
      requires Valid()
    {
      if pktNum <= cumAck then false else
      var offset := pktNum - cumAck - 1;
      if offset > 255 then false else
      TestBit(bitmap[offset / 8], offset % 8)
    }

    function Mark(pktNum: nat): (r: Ack)
      requires Valid()
      ensures r.Valid() && r.cumAck == cumAck
    {
      if pktNum <= cumAck then this else
      var offset := pktNum - cumAck - 1;
      if offset > 255 then this else
      this.(bitmap := bitmap[offset / 8 := SetByteBit(bitmap[offset / 8], offset % 8)])
    }

    /** The packet numbers this acknowledgement selects above its cumulative number. */
    ghost function Selected(): (s: set<nat>)
      requires Valid()
    {
      set k: nat | cumAck < k <= cumAck + SACK_WIDTH && IsReceived(k)
    }
  }

  /** Marking a number adds exactly that number, and only inside the 256-wide window. */
  lemma MarkAddsExactlyOne(a: Ack, pktNum: nat, other: nat)
    requires a.Valid()
    ensures a.Mark(pktNum).IsReceived(other) <==>
              a.IsReceived(other) || (other == pktNum && a.cumAck < pktNum <= a.cumAck + SACK_WIDTH)
  {
    if a.cumAck < pktNum <= a.cumAck + SACK_WIDTH && a.cumAck < other <= a.cumAck + SACK_WIDTH {
      var o, p := other - a.cumAck - 1, pktNum - a.cumAck - 1;
      if o / 8 == p / 8 {
        SetBitTest(a.bitmap[o / 8], p % 8, o % 8);
        assert o == p <==> o % 8 == p % 8;
      }
    }
  }

  lemma MarkSelected(a: Ack, pktNum: nat)
    requires a.Valid()
    ensures a.Mark(pktNum).Selected() ==
            a.Selected() + (if a.cumAck < pktNum <= a.cumAck + SACK_WIDTH then {pktNum} else {})
  {
    forall k: nat
      ensures k in a.Mark(pktNum).Selected() <==>
              k in a.Selected() + (if a.cumAck < pktNum <= a.cumAck + SACK_WIDTH then {pktNum} else {})
    {
      MarkAddsExactlyOne(a, pktNum, k);
    }
  }

  lemma BlankSelectsNothing(a: Ack)
    requires a.Valid() && forall i :: 0 <= i < BITMAP_BYTES ==> a.bitmap[i] == 0
    ensures a.Selected() == {}
  {
    forall k: nat | k < 8 ensures !TestBit(0, k) {
      ZeroBits(k);
    }
  }

  // ----- wire form -----

  function Encoded(a: Ack): (data: bytes)
    requires a.Valid()
    ensures |data| == ACK_DATA_SIZE
  {
    PutUint32(a.cumAck) + a.bitmap
  }

  function Decoded(data: bytes): (r: Result<Ack>)
  {
    if |data| < ACK_DATA_SIZE then Err("ack data too short")
    else Ok(Ack(Uint32(data[..4]), data[4..36]))
  }

  lemma DecodedValid(data: bytes)
    ensures Decoded(data).Ok? <==> |data| >= ACK_DATA_SIZE
    ensures Decoded(data).Ok? ==> Decoded(data).value.Valid()
  {
  }

  /** Decoding an encoded acknowledgement, with any trailing bytes, gives it back. */
  lemma DecodeInvertsEncode(a: Ack, rest: bytes)
    requires a.Valid()
    ensures Decoded(Encoded(a) + rest) == Ok(a)
  {
    var data := Encoded(a) + rest;
    assert data[..4] == PutUint32(a.cumAck) && data[4..36] == a.bitmap;
  }

  /** Every 36-byte datagram is the encoding of exactly the acknowledgement it decodes to. */
  lemma EncodeInvertsDecode(data: bytes)
    requires |data| == ACK_DATA_SIZE
    ensures Decoded(data).Ok? && Decoded(data).value.Valid() && Encoded(Decoded(data).value) == data
  {
    PutUint32Inverse(data[..4]);
    assert data == data[..4] + data[4..36];
  }

  // ----- the bytes on the wire -----

  /** The first packet after cumAck is the lowest bit of the first bitmap byte, the ninth that of the second. */
  lemma BitOrder(a: Ack, i: nat)
    requires a.Valid() && i < 256
    ensures a.IsReceived(a.cumAck + 1 + i) <==>
              a.bitmap[i / 8] / [1, 2, 4, 8, 16, 32, 64, 128][i % 8] % 2 == 1
  {
    BitOfByte(a.bitmap[i / 8], i % 8);
    hide TestBit;
  }

  lemma BitOfByte(n: nat, k: nat)
    requires k < 8
    ensures TestBit(n, k) <==> n / [1, 2, 4, 8, 16, 32, 64, 128][k] % 2 == 1
  {
    TestBitDivides(n, k);
    hide TestBit;
    assert Power2(1) == 2 * Power2(0) == 2 && Power2(2) == 2 * Power2(1) && Power2(3) == 2 * Power2(2);
    assert Power2(4) == 2 * Power2(3) && Power2(5) == 2 * Power2(4);
    assert Power2(6) == 2 * Power2(5) && Power2(7) == 2 * Power2(6);
  }

  /** On the wire: four bytes of cumAck, the most significant first, then the bitmap bytes in order. */
  lemma AckBytes(a: Ack)
    requires a.Valid()
    ensures var e := Encoded(a);
            && 0x100_0000 * (e[0] as int) + 0x1_0000 * (e[1] as int) + 0x100 * (e[2] as int) + e[3] as int == a.cumAck
            && e[4..] == a.bitmap
  {
    BigEndian32(Encoded(a));
    hide PutUint32, Uint32;
    assert Encoded(a)[..4] == PutUint32(a.cumAck);
  }

  /** The mutable AckData that BuildAck fills in and sendAck serialises. */
  class AckData {
    var cumAck: nat
    const bitmap: array<byte>

    ghost predicate Valid()
      reads this, bitmap
    {
      bitmap.Length == BITMAP_BYTES && cumAck < UINT32_LIMIT
    }

    ghost function View(): (a: Ack)
      reads this, bitmap
      requires Valid()
      ensures a.Valid()
    {
      Ack(cumAck, bitmap[..])
    }

    constructor (cumAck: nat)
      requires cumAck < UINT32_LIMIT
      ensures Valid() && fresh(this) && fresh(bitmap)
      ensures View().cumAck == cumAck && View().Selected() == {}
    {
      this.cumAck := cumAck;
      bitmap := new byte[BITMAP_BYTES](_ => 0);
      new;
      BlankSelectsNothing(View());
    }

    method SetReceived(pktNum: nat)
      requires Valid()
      modifies bitmap
      ensures Valid() && View() == old(View()).Mark(pktNum)
    {
      if pktNum <= cumAck {
        return;
      }
      var offset := pktNum - cumAck - 1;
      if offset > 255 {
        return;
      }
      bitmap[offset / 8] := SetByteBit(bitmap[offset / 8], offset % 8);
    }

    method Encode() returns (data: array<byte>)
      requires Valid()
      ensures fresh(data) && data[..] == Encoded(View())
    {
      data := new byte[ACK_DATA_SIZE](_ => 0);
      var head := PutUint32(cumAck);
      forall i | 0 <= i < 4 {
        data[i] := head[i];
      }
      forall i | 0 <= i < BITMAP_BYTES {
        data[4 + i] := bitmap[i];
      }
    }
  }
}
