/** The address encodings shared by the TLS connect request, the UDP-over-TLS frames and the stream-open message
    (pkg/proto/proto.go, pkg/proto/udp.go, pkg/udp/stream.go): the format of section 5 of RFC 1928. */
module AddrCodec {
  import opened Bytes

  const ADDR_IPV4: byte := 1
  const ADDR_DOMAIN: byte := 3
  const ADDR_IPV6: byte := 4

  /** A destination after net.ParseIP has classified its text. */
  datatype Host = V4(ip: bytes) | V6(ip: bytes) | Domain(name: bytes) {
    predicate Valid() {
      match this
      case V4(ip) => |ip| == 4
      case V6(ip) => |ip| == 16
      case Domain(_) => true
    }

    predicate Encodable() {
      Valid() && (Domain? ==> |name| <= 255)
    }
  }

  datatype Dest = Dest(host: Host, port: nat) {
    predicate Valid() {
      host.Valid() && port < UINT16_LIMIT
    }

    predicate Encodable() {
      host.Encodable() && port < UINT16_LIMIT
    }
  }

  /** encodeAddr: the length byte of a domain is truncated to eight bits. */
  function EncodeAddr(d: Dest): (b: bytes)
    requires d.Valid()
    ensures |b| >= 4
  {
    match d.host
    case V4(ip) => [ADDR_IPV4] + ip + PutUint16(d.port)
    case V6(ip) => [ADDR_IPV6] + ip + PutUint16(d.port)
    case Domain(name) => [ADDR_DOMAIN, |name| % 256] + name + PutUint16(d.port)
  }

  /** WriteConnect refuses the domains encodeAddr would truncate. */
  function ConnectRequest(d: Dest): Result<bytes>
    requires d.Valid()
  {
    if d.host.Domain? && |d.host.name| > 255 then Err("domain name too long") else Ok(EncodeAddr(d))
  }

  /** The bytes of an encoded address: its type (1, 4 or 3), the address or a length byte and the name, and the port
      with the most significant byte first. */
  lemma AddressBytes(d: Dest)
    requires d.Valid()
    ensures EncodeAddr(d) ==
            (match d.host
             case V4(ip) => [1, ip[0], ip[1], ip[2], ip[3]]
             case V6(ip) => [4] + ip
             case Domain(name) => [3, |name| % 256] + name) + [d.port / 256, d.port % 256]
  {
    BigEndian16(d.port, PutUint16(d.port));
    match d.host
    case V4(ip) => assert [ADDR_IPV4] + ip == [1, ip[0], ip[1], ip[2], ip[3]];
    case _ =>
  }

  datatype Decoded = Decoded(dest: Dest, totalLen: nat)

  function DecodeAddr(data: bytes): (r: Result<Decoded>)
    ensures r.Ok? ==> r.value.totalLen <= |data| && r.value.dest.Encodable()
  {
    if |data| < 1 then Err("empty addr data")
    else if data[0] == ADDR_IPV4 then
      if |data| < 7 then Err("short IPv4 addr")
      else Ok(Decoded(Dest(V4(data[1..5]), Uint16(data[5..7])), 7))
    else if data[0] == ADDR_DOMAIN then
      if |data| < 2 then Err("short domain addr") else
      var dLen: nat := data[1];
      if |data| < 2 + dLen + 2 then Err("short domain data")
      else Ok(Decoded(Dest(Domain(data[2..2 + dLen]), Uint16(data[2 + dLen..4 + dLen])), 4 + dLen))
    else if data[0] == ADDR_IPV6 then
      if |data| < 19 then Err("short IPv6 addr")
      else Ok(Decoded(Dest(V6(data[1..17]), Uint16(data[17..19])), 19))
    else Err("unknown addr type")
  }

  /** An address is its front part followed by the port. */
  lemma FrontThenPort(data: bytes, front: bytes, n: nat)
    requires 2 <= n <= |data| && data[..n - 2] == front
    ensures data[..n] == front + PutUint16(Uint16(data[n - 2..n]))
  {
    PutUint16Inverse(data[n - 2..n]);
    hide PutUint16, Uint16;
    assert data[..n] == data[..n - 2] + data[n - 2..n];
  }

  /** What decodes is the encoding of the decoded destination, byte for byte. */
  lemma DecodedIsEncoding(data: bytes)
    requires DecodeAddr(data).Ok?
    ensures var d := DecodeAddr(data).value;
            d.dest.Valid() && d.totalLen <= |data| && data[..d.totalLen] == EncodeAddr(d.dest)
  {
    hide PutUint16, Uint16;
    var n := DecodeAddr(data).value.totalLen;
    if data[0] == ADDR_IPV4 {
      FrontThenPort(data, [ADDR_IPV4] + data[1..5], n);
    } else if data[0] == ADDR_IPV6 {
      FrontThenPort(data, [ADDR_IPV6] + data[1..17], n);
    } else {
      FrontThenPort(data, [ADDR_DOMAIN, data[1]] + data[2..n - 2], n);
    }
  }

  /** An encoding followed by anything decodes to its destination. */
  lemma EncodingDecodes(d: Dest, rest: bytes)
    requires d.Encodable()
    ensures DecodeAddr(EncodeAddr(d) + rest) == Ok(Decoded(d, |EncodeAddr(d)|))
  {
    var data := EncodeAddr(d) + rest;
    var n := |EncodeAddr(d)|;
    assert data[n - 2..n] == PutUint16(d.port);
    match d.host
    case V4(ip) => assert data[1..5] == ip;
    case V6(ip) => assert data[1..17] == ip;
    case Domain(name) => assert data[2..n - 2] == name;
  }

  /** DecodeAddr accepts exactly the byte strings that start with an encoding, and an encoding is never a proper
      prefix of another one. */
  lemma AcceptsExactlyEncodings(data: bytes, d: Dest, n: nat)
    requires n <= |data|
    ensures DecodeAddr(data) == Ok(Decoded(d, n)) <==> d.Encodable() && data[..n] == EncodeAddr(d)
  {
    if DecodeAddr(data) == Ok(Decoded(d, n)) {
      DecodedIsEncoding(data);
    }
    if d.Encodable() && data[..n] == EncodeAddr(d) {
      EncodingDecodes(d, data[n..]);
      assert data == EncodeAddr(d) + data[n..];
    }
  }

  /** encodeAddr round-trips exactly the destinations whose domain fits the length byte. */
  lemma RoundTripsIffEncodable(d: Dest)
    requires d.Valid()
    ensures DecodeAddr(EncodeAddr(d)) == Ok(Decoded(d, |EncodeAddr(d)|)) <==> d.Encodable()
  {
    if d.Encodable() {
      EncodingDecodes(d, []);
      assert EncodeAddr(d) + [] == EncodeAddr(d);
    }
  }

  /** WriteConnect refuses exactly the destinations that would not be read back, and what it sends for the others,
      followed by anything, is read as the destination. */
  lemma ConnectRoundTrip(d: Dest, rest: bytes)
    requires d.Valid()
    ensures ConnectRequest(d).Ok? <==> DecodeAddr(EncodeAddr(d)) == Ok(Decoded(d, |EncodeAddr(d)|))
    ensures ConnectRequest(d).Ok? ==>
              DecodeAddr(ConnectRequest(d).value + rest) == Ok(Decoded(d, |ConnectRequest(d).value|))
  {
    hide DecodeAddr, EncodeAddr;
    RoundTripsIffEncodable(d);
    if d.Encodable() {
      EncodingDecodes(d, rest);
    }
  }

  // ----- the stream-open message -----

  datatype StreamOpen = StreamOpen(streamType: byte, dest: Dest)

  function EncodeStreamOpen(m: StreamOpen): bytes
    requires m.dest.Valid()
  {
    [m.streamType] + EncodeAddr(m.dest)
  }

  function DecodeStreamOpen(data: bytes): (r: Result<StreamOpen>) {
    if |data| < 4 then Err("stream open too short")
    else if data[1] == ADDR_IPV4 then
      if |data| < 8 then Err("ipv4 too short")
      else Ok(StreamOpen(data[0], Dest(V4(data[2..6]), Uint16(data[6..8]))))
    else if data[1] == ADDR_IPV6 then
      if |data| < 20 then Err("ipv6 too short")
      else Ok(StreamOpen(data[0], Dest(V6(data[2..18]), Uint16(data[18..20]))))
    else if data[1] == ADDR_DOMAIN then
      var dLen: nat := data[2];
      if |data| < 3 + dLen + 2 then Err("domain too short")
      else Ok(StreamOpen(data[0], Dest(Domain(data[3..3 + dLen]), Uint16(data[3 + dLen..5 + dLen]))))
    else Err("unknown addr type")
  }

  /** The stream-open message at hand decodes as its address does. */
  ghost predicate Agrees(data: bytes)
    requires data != []
  {
    && (DecodeStreamOpen(data).Ok? <==> DecodeAddr(data[1..]).Ok?)
    && (DecodeStreamOpen(data).Ok? ==>
          DecodeStreamOpen(data).value == StreamOpen(data[0], DecodeAddr(data[1..]).value.dest))
  }

  lemma StreamOpenV4(data: bytes)
    requires |data| >= 2 && data[1] == ADDR_IPV4
    ensures Agrees(data)
  {
    hide Uint16;
    var a := data[1..];
    if |data| >= 8 {
      assert a[1..5] == data[2..6] && a[5..7] == data[6..8];
    }
  }

  lemma StreamOpenV6(data: bytes)
    requires |data| >= 2 && data[1] == ADDR_IPV6
    ensures Agrees(data)
  {
    hide Uint16;
    var a := data[1..];
    if |data| >= 20 {
      assert a[1..17] == data[2..18] && a[17..19] == data[18..20];
    }
  }

  lemma StreamOpenDomain(data: bytes)
    requires |data| >= 2 && data[1] == ADDR_DOMAIN
    ensures Agrees(data)
  {
    hide Uint16;
    var a := data[1..];
    if |data| >= 4 {
      var dLen: nat := data[2];
      assert a[1] == data[2];
      if |data| >= 5 + dLen {
        assert a[2..2 + dLen] == data[3..3 + dLen] && a[2 + dLen..4 + dLen] == data[3 + dLen..5 + dLen];
      }
    }
  }

  /** After its type byte a stream-open message is accepted exactly when decodeAddr accepts it, with the same result. */
  lemma StreamOpenAgrees(data: bytes)
    requires data != []
    ensures Agrees(data)
  {
    if |data| >= 2 && data[1] == ADDR_IPV4 {
      StreamOpenV4(data);
    } else if |data| >= 2 && data[1] == ADDR_IPV6 {
      StreamOpenV6(data);
    } else if |data| >= 2 && data[1] == ADDR_DOMAIN {
      StreamOpenDomain(data);
    }
  }

  /** The type byte comes first. */
  lemma StreamOpenBytes(m: StreamOpen)
    requires m.dest.Valid()
    ensures EncodeStreamOpen(m)[0] == m.streamType && EncodeStreamOpen(m)[1..] == EncodeAddr(m.dest)
  {
  }

  lemma StreamOpenRoundTrip(m: StreamOpen, rest: bytes)
    requires m.dest.Encodable()
    ensures DecodeStreamOpen(EncodeStreamOpen(m) + rest) == Ok(m)
  {
    var data := EncodeStreamOpen(m) + rest;
    assert data[1..] == EncodeAddr(m.dest) + rest;
    EncodingDecodes(m.dest, rest);
    StreamOpenAgrees(data);
  }

  // ----- reading from a connection -----

  /** A byte stream with a read position; ReadFull either takes n bytes or fails. */
  class Reader {
    const data: bytes
    var pos: nat

    ghost predicate Valid()
      reads this
    {
      pos <= |data|
    }

    ghost function Rest(): bytes
      requires Valid()
      reads this
    {
      data[pos..]
    }

    constructor (data: bytes)
      ensures Valid() && Rest() == data && this.data == data && pos == 0
    {
      this.data := data;
      pos := 0;
    }

    method ReadFull(n: nat) returns (r: Option<bytes>)
      requires Valid()
      modifies this
      ensures Valid()
      ensures if n <= |old(Rest())| then r == Some(old(Rest())[..n]) && Rest() == old(Rest())[n..]
              else r.None?
    {
      if pos + n > |data| {
        pos := |data|;
        return None;
      }
      r := Some(data[pos..pos + n]);
      assert data[pos..][..n] == data[pos..pos + n] && data[pos..][n..] == data[pos + n..];
      pos := pos + n;
    }
  }

  /** The host part of an encoding and its length. */
  function DecodeHost(s: bytes): (r: Result<(Host, nat)>)
    ensures r.Ok? ==> r.value.1 <= |s|
  {
    if s == [] then Err("EOF")
    else if s[0] == ADDR_IPV4 then
      if |s| < 5 then Err("EOF") else Ok((V4(s[1..5]), 5))
    else if s[0] == ADDR_DOMAIN then
      if |s| < 2 then Err("EOF") else
      var n: nat := s[1];
      if |s| < 2 + n then Err("EOF") else Ok((Domain(s[2..2 + n]), 2 + n))
    else if s[0] == ADDR_IPV6 then
      if |s| < 17 then Err("EOF") else Ok((V6(s[1..17]), 17))
    else Err("unsupported address type")
  }

  lemma HostThenPort(s: bytes)
    ensures DecodeAddr(s).Ok? <==> DecodeHost(s).Ok? && |s| >= DecodeHost(s).value.1 + 2
    ensures DecodeAddr(s).Ok? ==>
              var (host, n) := DecodeHost(s).value;
              DecodeAddr(s).value == Decoded(Dest(host, Uint16(s[n..n + 2])), n + 2)
  {
  }

  /** A domain name behind its length byte. */
  method ReadName(conn: Reader) returns (r: Option<bytes>)
    requires conn.Valid()
    modifies conn
    ensures conn.Valid()
    ensures var s := old(conn.Rest());
            if |s| >= 1 && |s| >= 1 + s[0] as int
            then r == Some(s[1..1 + s[0] as int]) && conn.Rest() == s[1 + s[0] as int..]
            else r.None?
  {
    ghost var s := conn.Rest();
    var l := conn.ReadFull(1);
    if l.None? {
      return None;
    }
    var n: nat := l.value[0];
    r := conn.ReadFull(n);
    if r.Some? {
      assert s[1..][..n] == s[1..1 + n] && s[1..][n..] == s[1 + n..];
    }
  }

  method ReadHost(conn: Reader) returns (r: Result<Host>)
    requires conn.Valid()
    modifies conn
    ensures conn.Valid()
    ensures r.Ok? <==> DecodeHost(old(conn.Rest())).Ok?
    ensures r.Ok? ==>
              var (host, n) := DecodeHost(old(conn.Rest())).value;
              r.value == host && conn.Rest() == old(conn.Rest())[n..]
  {
    ghost var s := conn.Rest();
    var t := conn.ReadFull(1);
    if t.None? {
      return Err("EOF");
    }
    if t.value[0] == ADDR_IPV4 {
      var b := conn.ReadFull(4);
      if b.None? {
        return Err("EOF");
      }
      assert s[1..][..4] == s[1..5] && s[1..][4..] == s[5..];
      return Ok(V4(b.value));
    }
    if t.value[0] == ADDR_DOMAIN {
      var name := ReadName(conn);
      if name.None? {
        return Err("EOF");
      }
      var n: nat := s[1];
      assert s[1..][1..1 + n] == s[2..2 + n] && s[1..][1 + n..] == s[2 + n..];
      return Ok(Domain(name.value));
    }
    if t.value[0] == ADDR_IPV6 {
      var b := conn.ReadFull(16);
      if b.None? {
        return Err("EOF");
      }
      assert s[1..][..16] == s[1..17] && s[1..][16..] == s[17..];
      return Ok(V6(b.value));
    }
    return Err("unsupported address type");
  }

  /** ReadConnect consumes exactly one encoding and agrees with decodeAddr on every byte stream. */
  method ReadConnect(conn: Reader) returns (r: Result<Dest>)
    requires conn.Valid()
    modifies conn
    ensures conn.Valid()
    ensures r.Ok? <==> DecodeAddr(old(conn.Rest())).Ok?
    ensures r.Ok? ==>
              var d := DecodeAddr(old(conn.Rest())).value;
              r.value == d.dest && conn.Rest() == old(conn.Rest())[d.totalLen..]
  {
    hide DecodeHost, DecodeAddr;
    ghost var s := conn.Rest();
    HostThenPort(s);
    var host := ReadHost(conn);
    if host.Err? {
      return Err(host.error);
    }
    ghost var n := DecodeHost(s).value.1;
    var p := conn.ReadFull(2);
    if p.None? {
      return Err("EOF");
    }
    assert s[n..][..2] == s[n..n + 2] && s[n..][2..] == s[n + 2..];
    r := Ok(Dest(host.value, Uint16(p.value)));
  }

  // ----- UDP datagrams over a stream -----

  datatype Datagram = Datagram(dest: Dest, payload: bytes)

  predicate Framable(g: Datagram) {
    g.dest.Encodable() && |EncodeAddr(g.dest)| + |g.payload| < UINT16_LIMIT
  }

  /** WriteUDPFrame: the length is truncated to sixteen bits. */
  function Frame(g: Datagram): bytes
    requires g.dest.Valid()
  {
    var a := EncodeAddr(g.dest);
    PutUint16((|a| + |g.payload|) % UINT16_LIMIT) + a + g.payload
  }

  /** ReadUDPFrame on the remaining stream: the datagram and what is left. */
  function ReadFrame(s: bytes): (r: Result<(Datagram, bytes)>)
    ensures r.Ok? ==> |r.value.1| < |s|
  {
    if |s| < 2 then Err("EOF") else
    var n := Uint16(s[..2]);
    if n == 0 then Err("empty UDP frame")
    else if |s| < 2 + n then Err("EOF")
    else
      var frame := s[2..2 + n];
      match DecodeAddr(frame)
      case Err(e) => Err(e)
      case Ok(d) => Ok((Datagram(d.dest, frame[d.totalLen..]), s[2 + n..]))
  }

  /** A frame begins with the length of what follows, the most significant byte first. */
  lemma FrameBytes(g: Datagram)
    requires g.dest.Valid()
    ensures var n := |EncodeAddr(g.dest)| + |g.payload|;
            Frame(g) == [n % 0x1_0000 / 256, n % 0x1_0000 % 256] + EncodeAddr(g.dest) + g.payload
  {
    hide EncodeAddr, PutUint16;
    var n := |EncodeAddr(g.dest)| + |g.payload|;
    BigEndian16(n % UINT16_LIMIT, [0, 0]);
  }

  lemma FrameReads(g: Datagram, rest: bytes)
    requires Framable(g)
    ensures ReadFrame(Frame(g) + rest) == Ok((g, rest))
  {
    hide EncodeAddr, DecodeAddr, PutUint16, Uint16;
    var a := EncodeAddr(g.dest);
    FrameSlices(PutUint16(|a| + |g.payload|), a, g.payload, rest);
    EncodingDecodes(g.dest, g.payload);
  }

  lemma FrameSlices(head: bytes, a: bytes, payload: bytes, rest: bytes)
    requires |head| == 2
    ensures var s, n := head + a + payload + rest, |a| + |payload|;
            && |s| >= 2 + n && s[..2] == head && s[2..2 + n] == a + payload && s[2 + n..] == rest
            && (a + payload)[|a|..] == payload
  {
  }

  /** A written frame reads back as its datagram exactly when the domain fits the length byte and the frame
      fits the 16-bit length. */
  lemma FrameRoundTripsIffFramable(g: Datagram)
    requires g.dest.Valid()
    ensures ReadFrame(Frame(g)) == Ok((g, [])) <==> Framable(g)
  {
    if Framable(g) {
      FrameReads(g, []);
      assert Frame(g) + [] == Frame(g);
    }
  }

  ghost predicate AllFramable(gs: seq<Datagram>) {
    forall i :: 0 <= i < |gs| ==> Framable(gs[i])
  }

  ghost function Frames(gs: seq<Datagram>): bytes
    requires AllFramable(gs)
  {
    if gs == [] then [] else Frame(gs[0]) + Frames(gs[1..])
  }

  /** Reads frames until the stream is used up or a frame is malformed. */
  function ReadAll(s: bytes): (r: (seq<Datagram>, bytes))
    decreases |s|
  {
    match ReadFrame(s)
    case Err(_) => ([], s)
    case Ok((g, rest)) => var (gs, left) := ReadAll(rest); ([g] + gs, left)
  }

  /** Any list of datagrams written one after another reads back as that list, with nothing left over. */
  lemma {:induction false} FramesRoundTrip(gs: seq<Datagram>)
    requires AllFramable(gs)
    ensures ReadAll(Frames(gs)) == (gs, [])
    decreases |gs|
  {
    hide ReadFrame, Frame, Framable;
    if gs != [] {
      FrameReads(gs[0], Frames(gs[1..]));
      FramesRoundTrip(gs[1..]);
      assert gs == [gs[0]] + gs[1..];
    }
  }

  method ReadUDPFrame(conn: Reader) returns (r: Result<Datagram>)
    requires conn.Valid()
    modifies conn
    ensures conn.Valid()
    ensures r.Ok? <==> ReadFrame(old(conn.Rest())).Ok?
    ensures r.Ok? ==> (r.value, conn.Rest()) == ReadFrame(old(conn.Rest())).value
  {
    ghost var s := conn.Rest();
    var lenBuf := conn.ReadFull(2);
    if lenBuf.None? {
      return Err("EOF");
    }
    var frameLen := Uint16(lenBuf.value);
    if frameLen == 0 {
      return Err("empty UDP frame");
    }
    var frame := conn.ReadFull(frameLen);
    if frame.None? {
      return Err("EOF");
    }
    assert s[2..][..frameLen] == s[2..2 + frameLen] && s[2..][frameLen..] == s[2 + frameLen..];
    var d := DecodeAddr(frame.value);
    if d.Err? {
      return Err(d.error);
    }
    r := Ok(Datagram(d.value.dest, frame.value[d.value.totalLen..]));
  }
}
