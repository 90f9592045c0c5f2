/** Octets and the big-endian integers every codec of the program uses. */
module Bytes {

  type byte = x: int | 0 <= x < 256
  type bytes = seq<byte>

  const UINT16_LIMIT := 0x1_0000
  const UINT32_LIMIT := 0x1_0000_0000

  datatype Result<+T> = Ok(value: T) | Err(error: string)
  datatype Option<+T> = None | Some(value: T)

  function Power2(k: nat): (p: nat)
    ensures p > 0
  {
    if k == 0 then 1 else 2 * Power2(k - 1)
  }

  /** Bit k of n, as `n & (1 << k) != 0` tests it. */
  predicate TestBit(n: nat, k: nat) {
    if k == 0 then n % 2 == 1 else TestBit(n / 2, k - 1)
  }

  /** `n | (1 << k)`: the low bits pass through, bit k becomes one. */
  function SetBit(n: nat, k: nat): (r: nat) {
    if k == 0 then n / 2 * 2 + 1 else SetBit(n / 2, k - 1) * 2 + n % 2
  }

  lemma {:induction false} SetBitTest(n: nat, k: nat, j: nat)
    ensures TestBit(SetBit(n, k), j) <==> j == k || TestBit(n, j)
  {
    var r := SetBit(n, k);
    if k == 0 {
      assert r / 2 == n / 2;
    } else {
      assert r / 2 == SetBit(n / 2, k - 1) && r % 2 == n % 2;
      if j > 0 {
        SetBitTest(n / 2, k - 1, j - 1);
      }
    }
  }

  lemma {:induction false} SetBitBound(n: nat, k: nat, width: nat)
    requires k < width && n < Power2(width)
    ensures SetBit(n, k) < Power2(width)
  {
    var half := Power2(width - 1);
    assert Power2(width) == 2 * half && n / 2 < half;
    if k == 0 {
      assert SetBit(n, k) == n / 2 * 2 + 1;
    } else {
      SetBitBound(n / 2, k - 1, width - 1);
      assert SetBit(n, k) == SetBit(n / 2, k - 1) * 2 + n % 2;
    }
  }

  function SetByteBit(b: byte, k: nat): (r: byte)
    requires k < 8
  {
    assert Power2(8) == 2 * Power2(7) == 4 * Power2(6) == 8 * Power2(5) == 16 * Power2(4) == 256;
    SetBitBound(b, k, 8);
    SetBit(b, k)
  }

  lemma ZeroBits(k: nat)
    ensures !TestBit(0, k)
  {
  }

  // ----- big-endian integers -----

  function PutUint16(n: nat): (b: bytes)
    requires n < UINT16_LIMIT
    ensures |b| == 2 && Uint16(b) == n
  {
    [n / 256, n % 256]
  }

  function Uint16(b: bytes): (n: nat)
    requires |b| >= 2
    ensures n < UINT16_LIMIT
  {
    var high: nat, low: nat := b[0], b[1];
    high * 256 + low
  }

  lemma PutUint16Inverse(b: bytes)
    requires |b| == 2
    ensures PutUint16(Uint16(b)) == b
  {
  }

  function PutUint32(n: nat): (b: bytes)
    requires n < UINT32_LIMIT
    ensures |b| == 4 && Uint32(b) == n
  {
    var high, low := n / UINT16_LIMIT, n % UINT16_LIMIT;
    PutUint16(high) + PutUint16(low)
  }

  function Uint32(b: bytes): (n: nat)
    requires |b| >= 4
    ensures n < UINT32_LIMIT
  {
    Uint16(b[..2]) * UINT16_LIMIT + Uint16(b[2..4])
  }

  lemma PutUint32Inverse(b: bytes)
    requires |b| == 4
    ensures PutUint32(Uint32(b)) == b
  {
    var high, low := Uint16(b[..2]), Uint16(b[2..4]);
    SplitUint32(high, low);
    PutUint16Inverse(b[..2]);
    PutUint16Inverse(b[2..4]);
    assert b == b[..2] + b[2..4];
  }

  lemma SplitUint32(high: nat, low: nat)
    requires high < UINT16_LIMIT && low < UINT16_LIMIT
    ensures (high * UINT16_LIMIT + low) / UINT16_LIMIT == high && (high * UINT16_LIMIT + low) % UINT16_LIMIT == low
  {
  }

  /** The most significant byte comes first. */
  lemma BigEndian16(n: nat, b: bytes)
    requires n < 0x1_0000 && |b| >= 2
    ensures PutUint16(n) == [n / 0x100, n % 0x100]
    ensures Uint16(b) == 0x100 * (b[0] as int) + b[1] as int
  {
  }

  lemma BigEndian32(b: bytes)
    requires |b| >= 4
    ensures Uint32(b[..4]) ==
            0x100_0000 * (b[0] as int) + 0x1_0000 * (b[1] as int) + 0x100 * (b[2] as int) + b[3] as int
  {
    assert b[..4][..2] == b[..2] && b[..4][2..4] == b[2..4];
  }

  lemma DivUnique(x: nat, d: nat, q: nat, r: nat)
    requires r < d && x == q * d + r
    ensures x / d == q
  {
    var p := x / d;
    assert x == p * d + x % d;
    if p < q {
      MulGrows(p + 1, q, d);
    } else if q < p {
      MulGrows(q + 1, p, d);
    }
  }

  lemma MulGrows(a: nat, b: nat, d: nat)
    requires a <= b
    ensures a * d <= b * d
  {
  }

  lemma HalfThen(n: nat, m: nat)
    requires m > 0
    ensures n / 2 / m == n / (2 * m)
  {
    var half := n / 2;
    var q, r := half / m, half % m;
    assert half == q * m + r;
    assert q * (2 * m) == 2 * (q * m);
    DivUnique(n, 2 * m, q, 2 * r + n % 2);
  }

  /** Bit k counts 2^k. */
  lemma {:induction false} TestBitDivides(n: nat, k: nat)
    ensures TestBit(n, k) <==> n / Power2(k) % 2 == 1
  {
    if k > 0 {
      TestBitDivides(n / 2, k - 1);
      HalfThen(n, Power2(k - 1));
    }
  }
}
