/** IPv4/UDP packets of the TUN device and their one's-complement checksums (daemon/internal/tun/packet.go). */
module UdpPackets {
  import opened Bytes

  const IP_HEADER := 20
  const UDP_HEADER := 8
  const PROTO_UDP: byte := 17
  const MAX_UDP_PAYLOAD := 65507

  // ----- one's-complement sums (RFC 1071) -----

  /** The sum of the big-endian 16-bit words; an odd last byte is the high half of a word. */
  function Words(s: bytes): nat
    decreases |s|
  {
    if s == [] then 0
    else if |s| == 1 then (s[0] as int) * 256
    else Uint16(s) + Words(s[2..])
  }

  /** Adds the carries back until sixteen bits are left. */
  function Fold(n: nat): (r: nat)
    ensures r <= 0xFFFF
  {
    if n <= 0xFFFF then n else Fold(n / 0x1_0000 + n % 0x1_0000)
  }

  lemma {:induction false} MultiplesVanish(k: nat, x: nat)
    ensures (0xFFFF * k + x) % 0xFFFF == x % 0xFFFF
  {
    if k > 0 {
      var y := 0xFFFF * (k - 1) + x;
      assert (y + 0xFFFF) % 0xFFFF == y % 0xFFFF;
      MultiplesVanish(k - 1, x);
    }
  }

  /** Folding keeps a number modulo 0xFFFF and never makes a positive number zero. */
  lemma {:induction false} FoldIsModular(n: nat)
    ensures Fold(n) % 0xFFFF == n % 0xFFFF && (Fold(n) == 0 <==> n == 0)
    decreases n
  {
    if n > 0xFFFF {
      var high, low := n / 0x1_0000, n % 0x1_0000;
      MultiplesVanish(high, high + low);
      FoldIsModular(high + low);
    }
  }

  /** A positive multiple of 0xFFFF folds to all ones. */
  lemma MultipleFoldsToOnes(n: nat)
    requires n > 0 && n % 0xFFFF == 0
    ensures Fold(n) == 0xFFFF
  {
    FoldIsModular(n);
  }

  lemma CongruentComplement(n: nat, f: nat)
    requires n % 0xFFFF == f % 0xFFFF && f <= 0xFFFF && (f == 0 <==> n == 0)
    ensures n + (0xFFFF - f) > 0 && (n + (0xFFFF - f)) % 0xFFFF == 0
  {
    if f < 0xFFFF {
      var q := n / 0xFFFF;
      assert n == 0xFFFF * q + f;
      MultiplesVanish(q + 1, 0);
    }
  }

  /** Adding the complement of the folded sum makes the whole sum fold to all ones. */
  lemma ComplementVerifies(sum: nat)
    ensures Fold(sum + (0xFFFF - Fold(sum))) == 0xFFFF
    ensures Fold(sum) == 0xFFFF ==> Fold(sum + 0xFFFF) == 0xFFFF
  {
    hide Fold;
    FoldIsModular(sum);
    CongruentComplement(sum, Fold(sum));
    MultipleFoldsToOnes(sum + (0xFFFF - Fold(sum)));
    if Fold(sum) == 0xFFFF {
      MultipleFoldsToOnes(sum + 0xFFFF);
    }
  }

  lemma {:induction false} WordsConcat(a: bytes, b: bytes)
    requires |a| % 2 == 0
    ensures Words(a + b) == Words(a) + Words(b)
    decreases |a|
  {
    if a == [] {
      assert a + b == b;
    } else {
      assert (a + b)[2..] == a[2..] + b;
      WordsConcat(a[2..], b);
    }
  }

  lemma WordsOfUint16(n: nat)
    requires n < UINT16_LIMIT
    ensures Words(PutUint16(n)) == n
  {
    assert PutUint16(n)[2..] == [];
  }

  /** A byte at an even position counts 256 times, one at an odd position once. */
  lemma {:induction false} WordsByByte(s: bytes, b: byte)
    ensures Words([]) == 0
    ensures Words(s + [b]) == Words(s) + (if |s| % 2 == 0 then 256 * (b as int) else b as int)
    decreases |s|
  {
    if |s| >= 2 {
      assert (s + [b])[2..] == s[2..] + [b];
      BigEndian16(0, s);
      BigEndian16(0, s + [b]);
      WordsByByte(s[2..], b);
    } else if |s| == 1 {
      BigEndian16(0, s + [b]);
      assert (s + [b])[2..] == [];
    }
  }

  lemma {:induction false} WordsBound(s: bytes)
    ensures Words(s) <= 0xFFFF * ((|s| + 1) / 2)
    decreases |s|
  {
    if |s| >= 2 {
      WordsBound(s[2..]);
    }
  }

  // ----- layout -----

  function IpHeader(totalLen: nat, checksum: nat, src: bytes, dst: bytes): (h: bytes)
    requires totalLen < UINT16_LIMIT && checksum < UINT16_LIMIT && |src| == 4 && |dst| == 4
    ensures |h| == IP_HEADER
  {
    [0x45, 0] + PutUint16(totalLen) + [0, 0, 0, 0, 64, PROTO_UDP] + PutUint16(checksum) + src + dst
  }

  function UdpSegment(srcPort: nat, dstPort: nat, udpLen: nat, checksum: nat, payload: bytes): (u: bytes)
    requires srcPort < UINT16_LIMIT && dstPort < UINT16_LIMIT && udpLen < UINT16_LIMIT && checksum < UINT16_LIMIT
    ensures |u| == UDP_HEADER + |payload|
  {
    PutUint16(srcPort) + PutUint16(dstPort) + PutUint16(udpLen) + PutUint16(checksum) + payload
  }

  /** The sum of the UDP pseudo-header (RFC 768). */
  function PseudoWords(src: bytes, dst: bytes, udpLen: nat): nat
    requires |src| == 4 && |dst| == 4
  {
    Words(src) + Words(dst) + 17 + udpLen
  }

  /** The program sums in 32-bit accumulators. */
  function Wrap32(n: nat): (r: nat)
    ensures r < UINT32_LIMIT && (n < UINT32_LIMIT ==> r == n)
  {
    n % UINT32_LIMIT
  }

  function IpChecksumOf(h: bytes): (c: nat)
    ensures c < UINT16_LIMIT
  {
    0xFFFF - Fold(Wrap32(Words(h)))
  }

  function UdpChecksumOf(src: bytes, dst: bytes, u: bytes): (c: nat)
    requires |src| == 4 && |dst| == 4
    ensures 0 < c < UINT16_LIMIT
  {
    var c := 0xFFFF - Fold(Wrap32(PseudoWords(src, dst, |u|) + Words(u)));
    if c == 0 then 0xFFFF else c
  }

  function Built(src: bytes, dst: bytes, srcPort: nat, dstPort: nat, payload: bytes): (p: bytes)
    requires |src| == 4 && |dst| == 4 && srcPort < UINT16_LIMIT && dstPort < UINT16_LIMIT
    ensures |p| == IP_HEADER + UDP_HEADER + |payload|
  {
    var udpLen := (UDP_HEADER + |payload|) % UINT16_LIMIT;
    var total := (IP_HEADER + UDP_HEADER + |payload|) % UINT16_LIMIT;
    IpHeader(total, IpChecksumOf(IpHeader(total, 0, src, dst)), src, dst) +
    UdpSegment(srcPort, dstPort, udpLen,
               UdpChecksumOf(src, dst, UdpSegment(srcPort, dstPort, udpLen, 0, payload)), payload)
  }

  // ----- the checksum fields enter the sums additively -----

  lemma IpHeaderWords(totalLen: nat, checksum: nat, src: bytes, dst: bytes)
    requires totalLen < UINT16_LIMIT && checksum < UINT16_LIMIT && |src| == 4 && |dst| == 4
    ensures Words(IpHeader(totalLen, checksum, src, dst)) == Words(IpHeader(totalLen, 0, src, dst)) + checksum
  {
    var front := [0x45, 0] + PutUint16(totalLen) + [0, 0, 0, 0, 64, PROTO_UDP];
    AroundField(front, checksum, src + dst, IpHeader(totalLen, checksum, src, dst));
    AroundField(front, 0, src + dst, IpHeader(totalLen, 0, src, dst));
  }

  lemma UdpSegmentWords(srcPort: nat, dstPort: nat, udpLen: nat, checksum: nat, payload: bytes)
    requires srcPort < UINT16_LIMIT && dstPort < UINT16_LIMIT && udpLen < UINT16_LIMIT && checksum < UINT16_LIMIT
    ensures Words(UdpSegment(srcPort, dstPort, udpLen, checksum, payload)) ==
            Words(UdpSegment(srcPort, dstPort, udpLen, 0, payload)) + checksum
  {
    var front := PutUint16(srcPort) + PutUint16(dstPort) + PutUint16(udpLen);
    AroundField(front, checksum, payload, UdpSegment(srcPort, dstPort, udpLen, checksum, payload));
    AroundField(front, 0, payload, UdpSegment(srcPort, dstPort, udpLen, 0, payload));
  }

  lemma AroundField(front: bytes, field: nat, back: bytes, whole: bytes)
    requires |front| % 2 == 0 && field < UINT16_LIMIT && whole == front + PutUint16(field) + back
    ensures Words(whole) == Words(front) + field + Words(back)
  {
    hide Words, PutUint16;
    assert whole == front + (PutUint16(field) + back);
    WordsConcat(front, PutUint16(field) + back);
    WordsConcat(PutUint16(field), back);
    WordsOfUint16(field);
  }

  lemma IpHeaderVerifies(totalLen: nat, src: bytes, dst: bytes)
    requires totalLen < UINT16_LIMIT && |src| == 4 && |dst| == 4
    ensures Fold(Words(IpHeader(totalLen, IpChecksumOf(IpHeader(totalLen, 0, src, dst)), src, dst))) == 0xFFFF
  {
    var bare := IpHeader(totalLen, 0, src, dst);
    WordsBound(bare);
    IpHeaderWords(totalLen, IpChecksumOf(bare), src, dst);
    ComplementVerifies(Words(bare));
  }

  lemma UdpSegmentVerifies(src: bytes, dst: bytes, srcPort: nat, dstPort: nat, payload: bytes)
    requires |src| == 4 && |dst| == 4 && srcPort < UINT16_LIMIT && dstPort < UINT16_LIMIT
    requires |payload| <= MAX_UDP_PAYLOAD
    ensures var udpLen := UDP_HEADER + |payload|;
            var cs := UdpChecksumOf(src, dst, UdpSegment(srcPort, dstPort, udpLen, 0, payload));
            var sum := PseudoWords(src, dst, udpLen) + Words(UdpSegment(srcPort, dstPort, udpLen, cs, payload));
            Fold(sum) == 0xFFFF && sum < UINT32_LIMIT
  {
    hide UdpSegment, Words, Fold;
    var udpLen := UDP_HEADER + |payload|;
    var open := UdpSegment(srcPort, dstPort, udpLen, 0, payload);
    var cs := UdpChecksumOf(src, dst, open);
    UdpSegmentWords(srcPort, dstPort, udpLen, cs, payload);
    ComplementVerifies(PseudoWords(src, dst, udpLen) + Words(open));
    WordsBound(src);
    WordsBound(dst);
    WordsBound(open);
    WordsBound(UdpSegment(srcPort, dstPort, udpLen, cs, payload));
  }

  /** Built packets verify: both sums, checksums included, fold to all ones, and both accumulators fit 32 bits. */
  lemma BuiltVerifies(src: bytes, dst: bytes, srcPort: nat, dstPort: nat, payload: bytes)
    requires |src| == 4 && |dst| == 4 && srcPort < UINT16_LIMIT && dstPort < UINT16_LIMIT
    requires |payload| <= MAX_UDP_PAYLOAD
    ensures var p := Built(src, dst, srcPort, dstPort, payload);
            && Fold(Words(p[..IP_HEADER])) == 0xFFFF && Words(p[..IP_HEADER]) < UINT32_LIMIT
            && Fold(PseudoWords(src, dst, |p| - IP_HEADER) + Words(p[IP_HEADER..])) == 0xFFFF
            && PseudoWords(src, dst, |p| - IP_HEADER) + Words(p[IP_HEADER..]) < UINT32_LIMIT
  {
    hide IpHeader, UdpSegment, Words, Fold, PseudoWords, UdpChecksumOf, IpChecksumOf;
    var udpLen := UDP_HEADER + |payload|;
    var total := IP_HEADER + udpLen;
    var header := IpHeader(total, IpChecksumOf(IpHeader(total, 0, src, dst)), src, dst);
    var cs := UdpChecksumOf(src, dst, UdpSegment(srcPort, dstPort, udpLen, 0, payload));
    var segment := UdpSegment(srcPort, dstPort, udpLen, cs, payload);
    var p := Built(src, dst, srcPort, dstPort, payload);
    assert p[..IP_HEADER] == header && p[IP_HEADER..] == segment;
    IpHeaderVerifies(total, src, dst);
    WordsBound(header);
    UdpSegmentVerifies(src, dst, srcPort, dstPort, payload);
  }

  // ----- parsing -----

  datatype IpFields = IpFields(proto: byte, src: bytes, dst: bytes, hdrLen: nat)
  datatype UdpFields = UdpFields(srcPort: nat, dstPort: nat, payload: bytes)

  function ParseIPv4Header(pkt: bytes): (r: Result<IpFields>) {
    if |pkt| < 20 then Err("packet too short")
    else if pkt[0] / 16 != 4 then Err("not IPv4")
    else
      var hdrLen := pkt[0] % 16 * 4;
      if |pkt| < hdrLen then Err("packet too short")
      else Ok(IpFields(pkt[9], pkt[12..16], pkt[16..20], hdrLen))
  }

  function ParseUDPHeader(udp: bytes): (r: Result<UdpFields>) {
    if |udp| < 8 then Err("packet too short") else
    var length := Uint16(udp[4..6]);
    if length < 8 || |udp| < length then Err("packet too short")
    else Ok(UdpFields(Uint16(udp[0..2]), Uint16(udp[2..4]), udp[8..length]))
  }

  /** Built packets parse back to the fields they were built from, also inside a longer buffer. */
  lemma BuiltParses(src: bytes, dst: bytes, srcPort: nat, dstPort: nat, payload: bytes, stale: bytes)
    requires |src| == 4 && |dst| == 4 && srcPort < UINT16_LIMIT && dstPort < UINT16_LIMIT
    requires |payload| <= MAX_UDP_PAYLOAD
    ensures var p := Built(src, dst, srcPort, dstPort, payload);
            && ParseIPv4Header(p) == Ok(IpFields(PROTO_UDP, src, dst, IP_HEADER))
            && ParseUDPHeader(p[IP_HEADER..] + stale) == Ok(UdpFields(srcPort, dstPort, payload))
  {
    hide UdpChecksumOf, IpChecksumOf, PutUint16, IpHeader, UdpSegment, ParseIPv4Header, ParseUDPHeader;
    var p := Built(src, dst, srcPort, dstPort, payload);
    var udpLen, total := UDP_HEADER + |payload|, IP_HEADER + UDP_HEADER + |payload|;
    var cs := UdpChecksumOf(src, dst, UdpSegment(srcPort, dstPort, udpLen, 0, payload));
    var segment := UdpSegment(srcPort, dstPort, udpLen, cs, payload);
    assert p[IP_HEADER..] == segment;
    HeaderParses(total, IpChecksumOf(IpHeader(total, 0, src, dst)), src, dst, segment);
    SegmentParses(srcPort, dstPort, udpLen, cs, payload, stale);
  }

  lemma HeaderParses(total: nat, checksum: nat, src: bytes, dst: bytes, rest: bytes)
    requires total < UINT16_LIMIT && checksum < UINT16_LIMIT && |src| == 4 && |dst| == 4
    ensures ParseIPv4Header(IpHeader(total, checksum, src, dst) + rest) ==
            Ok(IpFields(PROTO_UDP, src, dst, IP_HEADER))
  {
    hide PutUint16;
    var p := IpHeader(total, checksum, src, dst) + rest;
    assert p[12..16] == src && p[16..20] == dst;
  }

  lemma SegmentParses(srcPort: nat, dstPort: nat, udpLen: nat, checksum: nat, payload: bytes, stale: bytes)
    requires srcPort < UINT16_LIMIT && dstPort < UINT16_LIMIT && checksum < UINT16_LIMIT
    requires udpLen == UDP_HEADER + |payload| < UINT16_LIMIT
    ensures ParseUDPHeader(UdpSegment(srcPort, dstPort, udpLen, checksum, payload) + stale) ==
            Ok(UdpFields(srcPort, dstPort, payload))
  {
    hide PutUint16;
    var u := UdpSegment(srcPort, dstPort, udpLen, checksum, payload) + stale;
    assert u[0..2] == PutUint16(srcPort) && u[2..4] == PutUint16(dstPort) && u[4..6] == PutUint16(udpLen);
    assert u[8..udpLen] == payload;
  }

  /** The bytes of a built packet outside its checksums. */
  lemma BuiltBytes(src: bytes, dst: bytes, srcPort: nat, dstPort: nat, payload: bytes)
    requires |src| == 4 && |dst| == 4 && srcPort < UINT16_LIMIT && dstPort < UINT16_LIMIT
    ensures var p := Built(src, dst, srcPort, dstPort, payload);
            && p[0] == 0x45 && p[1] == 0 && p[4..10] == [0, 0, 0, 0, 64, 17] && p[12..16] == src && p[16..20] == dst
            && p[20..22] == [srcPort / 256, srcPort % 256] && p[22..24] == [dstPort / 256, dstPort % 256]
            && p[28..] == payload
            && p[2..4] == [|p| % 0x1_0000 / 256, |p| % 0x1_0000 % 256]
            && p[24..26] == [(|p| - 20) % 0x1_0000 / 256, (|p| - 20) % 0x1_0000 % 256]
  {
    LengthFieldsAt(src, dst, srcPort, dstPort, payload);
    PortsAt(src, dst, srcPort, dstPort, payload);
    AddressesAt(src, dst, srcPort, dstPort, payload);
    hide Built, PutUint16;
    var p := Built(src, dst, srcPort, dstPort, payload);
    BigEndian16(srcPort, p);
    BigEndian16(dstPort, p);
    BigEndian16(|p| % UINT16_LIMIT, p);
    BigEndian16((|p| - 20) % UINT16_LIMIT, p);
  }

  lemma AddressesAt(src: bytes, dst: bytes, srcPort: nat, dstPort: nat, payload: bytes)
    requires |src| == 4 && |dst| == 4 && srcPort < UINT16_LIMIT && dstPort < UINT16_LIMIT
    ensures var p := Built(src, dst, srcPort, dstPort, payload);
            p[0] == 0x45 && p[1] == 0 && p[4..10] == [0, 0, 0, 0, 64, 17] && p[12..16] == src && p[16..20] == dst
  {
    hide UdpChecksumOf, IpChecksumOf, PutUint16;
  }

  lemma PortsAt(src: bytes, dst: bytes, srcPort: nat, dstPort: nat, payload: bytes)
    requires |src| == 4 && |dst| == 4 && srcPort < UINT16_LIMIT && dstPort < UINT16_LIMIT
    ensures var p := Built(src, dst, srcPort, dstPort, payload);
            p[20..22] == PutUint16(srcPort) && p[22..24] == PutUint16(dstPort) && p[28..] == payload
  {
    hide UdpChecksumOf, IpChecksumOf, PutUint16;
  }

  /** The UDP pseudo-header of RFC 768: both addresses, protocol 17 and the UDP length. */
  lemma PseudoHeader(src: bytes, dst: bytes, udpLen: nat)
    requires |src| == 4 && |dst| == 4 && udpLen < 0x1_0000
    ensures PseudoWords(src, dst, udpLen) == Words(src + dst + [0, 17, udpLen / 256, udpLen % 256])
  {
    var tail: bytes := [0, 17, udpLen / 256, udpLen % 256];
    assert src + dst + tail == src + (dst + tail);
    WordsConcat(src, dst + tail);
    WordsConcat(dst, tail);
    WordsByByte([], 0);
    WordsByByte([0], 17);
    WordsByByte([0, 17], udpLen / 256);
    WordsByByte([0, 17, udpLen / 256], udpLen % 256);
    var none: bytes := [];
    assert none + [0] == [0] && [0] + [17] == [0, 17] && [0, 17] + [udpLen / 256] == [0, 17, udpLen / 256];
    assert [0, 17, udpLen / 256] + [udpLen % 256] == tail;
  }

  /** The length fields are 16 bits wide, so they tell the truth exactly up to the largest UDP datagram. */
  lemma LengthFieldsTruthful(src: bytes, dst: bytes, srcPort: nat, dstPort: nat, payload: bytes)
    requires |src| == 4 && |dst| == 4 && srcPort < UINT16_LIMIT && dstPort < UINT16_LIMIT
    ensures var p := Built(src, dst, srcPort, dstPort, payload);
            (Uint16(p[2..4]) == |p| && Uint16(p[24..26]) == |p| - IP_HEADER) <==> |payload| <= MAX_UDP_PAYLOAD
  {
    hide Built, PutUint16;
    LengthFieldsAt(src, dst, srcPort, dstPort, payload);
  }

  lemma LengthFieldsAt(src: bytes, dst: bytes, srcPort: nat, dstPort: nat, payload: bytes)
    requires |src| == 4 && |dst| == 4 && srcPort < UINT16_LIMIT && dstPort < UINT16_LIMIT
    ensures var p := Built(src, dst, srcPort, dstPort, payload);
            && p[2..4] == PutUint16(|p| % UINT16_LIMIT)
            && p[24..26] == PutUint16((|p| - IP_HEADER) % UINT16_LIMIT)
  {
    hide UdpChecksumOf, IpChecksumOf, PutUint16;
  }

  // ----- the program's loops -----

  lemma WrapAdd(a: nat, b: nat)
    ensures Wrap32(Wrap32(a) + b) == Wrap32(a + b)
  {
  }

  method SumWords(s: bytes, start: nat) returns (sum: nat)
    ensures sum == Wrap32(start + Words(s[..|s| / 2 * 2]))
  {
    hide Wrap32;
    sum := Wrap32(start);
    var i := 0;
    var even := s[..|s| / 2 * 2];
    WrapAdd(start, Words(even));
    WrapAdd(start, 0);
    assert even[0..] == even;
    while i < |s| - 1
      invariant 0 <= i <= |even| && i % 2 == 0
      invariant sum == Wrap32(sum) && Wrap32(sum + Words(even[i..])) == Wrap32(start + Words(even))
    {
      assert even[i..][2..] == even[i + 2..] && Uint16(even[i..]) == Uint16(s[i..i + 2]);
      var word := Uint16(s[i..i + 2]);
      WrapAdd(sum + word, Words(even[i + 2..]));
      WrapAdd(sum + word, 0);
      sum := Wrap32(sum + word);
      i := i + 2;
    }
    assert even[i..] == [];
  }

  method FoldCarries(n: nat) returns (r: nat)
    ensures r == Fold(n)
  {
    r := n;
    while r > 0xFFFF
      invariant Fold(r) == Fold(n)
    {
      r := r / 0x1_0000 + r % 0x1_0000;
    }
  }

  /** Sums whole words only: the odd last byte of a header, which IPv4 does not have, would not be covered. */
  method IpChecksum(hdr: bytes) returns (c: nat)
    ensures c == IpChecksumOf(hdr[..|hdr| / 2 * 2])
  {
    var sum := SumWords(hdr, 0);
    sum := FoldCarries(sum);
    c := 0xFFFF - sum;
  }

  method UdpChecksum(src: bytes, dst: bytes, u: bytes) returns (c: nat)
    requires |src| == 4 && |dst| == 4
    ensures c == UdpChecksumOf(src, dst, u)
  {
    AddressWords(src);
    AddressWords(dst);
    var sum: nat := 0;
    sum := sum + Uint16(src[0..2]) + Uint16(src[2..4]);
    sum := sum + Uint16(dst[0..2]) + Uint16(dst[2..4]);
    sum := sum + 17;
    sum := sum + |u|;
    hide Wrap32, Words;
    sum := SumWords(u, sum);
    OddTail(u);
    if |u| % 2 == 1 {
      WrapAdd(PseudoWords(src, dst, |u|) + Words(u[..|u| / 2 * 2]), (u[|u| - 1] as int) * 256);
      sum := Wrap32(sum + (u[|u| - 1] as int) * 256);
    }
    sum := FoldCarries(sum);
    c := 0xFFFF - sum;
    if c == 0 {
      c := 0xFFFF;
    }
  }

  lemma AddressWords(a: bytes)
    requires |a| == 4
    ensures Words(a) == Uint16(a[0..2]) + Uint16(a[2..4])
  {
    assert a == a[0..2] + a[2..4];
    WordsConcat(a[0..2], a[2..4]);
    assert a[0..2][2..] == [] && a[2..4][2..] == [];
  }

  lemma LastByte(b: byte)
    ensures Words([b]) == (b as int) * 256
  {
  }

  lemma OddTail(u: bytes)
    ensures |u| % 2 == 1 ==> Words(u) == Words(u[..|u| / 2 * 2]) + (u[|u| - 1] as int) * 256
    ensures |u| % 2 == 0 ==> u[..|u| / 2 * 2] == u
  {
    hide Words;
    if |u| % 2 == 1 {
      var even, last := u[..|u| - 1], [u[|u| - 1]];
      assert |u| / 2 * 2 == |u| - 1 && u == even + last;
      LastByte(u[|u| - 1]);
      WordsConcat(even, last);
    }
  }

  /** Overwrites part of a buffer, as copy does. */
  method Put(buf: array<byte>, at: nat, data: bytes)
    requires at + |data| <= buf.Length
    modifies buf
    ensures buf[..at + |data|] == old(buf[..at]) + data
    ensures forall i :: at + |data| <= i < buf.Length ==> buf[i] == old(buf[i])
  {
    forall i | 0 <= i < |data| {
      buf[at + i] := data[i];
    }
  }

  /** Overwrites the two bytes at `at` inside the first `end` bytes. */
  method PutField(buf: array<byte>, at: nat, end: nat, field: nat)
    requires at + 2 <= end <= buf.Length && field < UINT16_LIMIT
    modifies buf
    ensures buf[..end] == old(buf[..at]) + PutUint16(field) + old(buf[at + 2..end])
    ensures forall i :: end <= i < buf.Length ==> buf[i] == old(buf[i])
  {
    hide PutUint16;
    Put(buf, at, PutUint16(field));
    assert buf[..end] == buf[..at + 2] + buf[at + 2..end];
  }

  /** Writes the packet over whatever the reused buffer held and leaves the rest of the buffer alone. */
  method BuildUDPPacketInto(buf: array<byte>, src: bytes, dst: bytes, srcPort: nat, dstPort: nat, payload: bytes)
    returns (n: nat)
    requires |src| == 4 && |dst| == 4 && srcPort < UINT16_LIMIT && dstPort < UINT16_LIMIT
    requires buf.Length >= 28 + |payload|
    modifies buf
    ensures n == 28 + |payload| && buf[..n] == Built(src, dst, srcPort, dstPort, payload)
    ensures forall i :: n <= i < buf.Length ==> buf[i] == old(buf[i])
  {
    hide IpChecksumOf, UdpChecksumOf, IpHeader, UdpSegment;
    n := IP_HEADER + UDP_HEADER + |payload|;
    FillIpHeader(buf, n % UINT16_LIMIT, src, dst);
    FillUdpSegment(buf, src, dst, srcPort, dstPort, (UDP_HEADER + |payload|) % UINT16_LIMIT, payload);
  }

  method FillIpHeader(buf: array<byte>, totalLen: nat, src: bytes, dst: bytes)
    requires |src| == 4 && |dst| == 4 && buf.Length >= IP_HEADER && totalLen < UINT16_LIMIT
    modifies buf
    ensures buf[..IP_HEADER] == IpHeader(totalLen, IpChecksumOf(IpHeader(totalLen, 0, src, dst)), src, dst)
    ensures forall i :: IP_HEADER <= i < buf.Length ==> buf[i] == old(buf[i])
  {
    hide IpChecksumOf, PutUint16;
    FillOpenHeader(buf, totalLen, src, dst);
    ghost var bare := buf[..IP_HEADER];
    assert bare[..|bare| / 2 * 2] == bare;
    var c := IpChecksum(buf[..IP_HEADER]);
    assert buf[..10] == bare[..10] && buf[12..IP_HEADER] == bare[12..];
    PutField(buf, 10, IP_HEADER, c);
    HeaderAround(totalLen, 0, src, dst);
    HeaderAround(totalLen, c, src, dst);
  }

  /** The header with the checksum field cleared. */
  method FillOpenHeader(buf: array<byte>, totalLen: nat, src: bytes, dst: bytes)
    requires |src| == 4 && |dst| == 4 && buf.Length >= IP_HEADER && totalLen < UINT16_LIMIT
    modifies buf
    ensures buf[..IP_HEADER] == IpHeader(totalLen, 0, src, dst)
    ensures forall i :: IP_HEADER <= i < buf.Length ==> buf[i] == old(buf[i])
  {
    hide PutUint16;
    Put(buf, 0, [0x45, 0]);
    Put(buf, 2, PutUint16(totalLen));
    Put(buf, 4, [0, 0, 0, 0, 64, PROTO_UDP]);
    Put(buf, 10, PutUint16(0));
    Put(buf, 12, src);
    Put(buf, 16, dst);
  }

  /** What lies before and behind the checksum does not depend on it. */
  lemma HeaderAround(totalLen: nat, c: nat, src: bytes, dst: bytes)
    requires totalLen < UINT16_LIMIT && c < UINT16_LIMIT && |src| == 4 && |dst| == 4
    ensures var h := IpHeader(totalLen, c, src, dst);
            && h[..10] == [0x45, 0] + PutUint16(totalLen) + [0, 0, 0, 0, 64, PROTO_UDP]
            && h[12..] == src + dst
            && h == h[..10] + PutUint16(c) + h[12..]
  {
    hide PutUint16;
  }

  method FillUdpSegment(buf: array<byte>, src: bytes, dst: bytes, srcPort: nat, dstPort: nat, udpLen: nat,
                        payload: bytes)
    requires |src| == 4 && |dst| == 4 && srcPort < UINT16_LIMIT && dstPort < UINT16_LIMIT && udpLen < UINT16_LIMIT
    requires buf.Length >= 28 + |payload|
    modifies buf
    ensures buf[..28 + |payload|] == old(buf[..IP_HEADER]) +
            UdpSegment(srcPort, dstPort, udpLen,
                       UdpChecksumOf(src, dst, UdpSegment(srcPort, dstPort, udpLen, 0, payload)), payload)
    ensures forall i :: 28 + |payload| <= i < buf.Length ==> buf[i] == old(buf[i])
  {
    hide UdpChecksumOf, PutUint16;
    var end := 28 + |payload|;
    ghost var header := buf[..IP_HEADER];
    FillOpenSegment(buf, srcPort, dstPort, udpLen, payload);
    ghost var open := UdpSegment(srcPort, dstPort, udpLen, 0, payload);
    assert buf[IP_HEADER..end] == open by {
      assert buf[IP_HEADER..end] == buf[..end][IP_HEADER..];
    }
    var c := UdpChecksum(src, dst, buf[IP_HEADER..end]);
    ghost var whole := buf[..end];
    PutField(buf, 26, end, c);
    ghost var front := PutUint16(srcPort) + PutUint16(dstPort) + PutUint16(udpLen);
    assert whole == header + front + PutUint16(0) + payload;
    assert whole[..26] == header + front && whole[28..] == payload;
    assert header + front + PutUint16(c) + payload == header + UdpSegment(srcPort, dstPort, udpLen, c, payload);
  }

  /** The segment with the checksum field cleared. */
  method FillOpenSegment(buf: array<byte>, srcPort: nat, dstPort: nat, udpLen: nat, payload: bytes)
    requires srcPort < UINT16_LIMIT && dstPort < UINT16_LIMIT && udpLen < UINT16_LIMIT
    requires buf.Length >= 28 + |payload|
    modifies buf
    ensures buf[..28 + |payload|] == old(buf[..IP_HEADER]) + UdpSegment(srcPort, dstPort, udpLen, 0, payload)
    ensures forall i :: 28 + |payload| <= i < buf.Length ==> buf[i] == old(buf[i])
  {
    hide PutUint16;
    ghost var header := buf[..IP_HEADER];
    Put(buf, 20, PutUint16(srcPort));
    Put(buf, 22, PutUint16(dstPort));
    Put(buf, 24, PutUint16(udpLen));
    Put(buf, 26, PutUint16(0));
    Put(buf, 28, payload);
    assert header + PutUint16(srcPort) + PutUint16(dstPort) + PutUint16(udpLen) + PutUint16(0) + payload ==
           header + UdpSegment(srcPort, dstPort, udpLen, 0, payload);
  }
}
