/** The SNI sniffer of the TUN engine (daemon/internal/tun/stream_log.go). */
module SniSniffing {
  import opened Bytes

  const SNIFF_LIMIT := 2048

  /** A parse either needs more bytes or has its final answer; no host is the empty answer. */
  datatype Sni = NeedMore | Answer(host: bytes)

  datatype Scan = Found(host: bytes) | Malformed | Exhausted

  // ----- the parser as a function -----

  /** The server-name list: the first host_name entry, unless a length runs past the list before it. */
  function ScanNames(lst: bytes): Scan
    decreases |lst|
  {
    if |lst| < 3 then Exhausted else
    var n := Uint16(lst[1..3]);
    if |lst| < 3 + n then Malformed
    else if lst[0] == 0 then Found(lst[3..3 + n])
    else ScanNames(lst[3 + n..])
  }

  function ScanServerName(ext: bytes): Scan {
    if |ext| < 2 then Malformed else
    var n := Uint16(ext[..2]);
    if |ext| < 2 + n then Malformed else ScanNames(ext[2..2 + n])
  }

  function ScanExtensions(p: bytes): bytes
    decreases |p|
  {
    if |p| < 4 then [] else
    var size := Uint16(p[2..4]);
    if |p| < 4 + size then []
    else if Uint16(p[..2]) != 0 then ScanExtensions(p[4 + size..])
    else
      match ScanServerName(p[4..4 + size])
      case Found(h) => h
      case Malformed => []
      case Exhausted => ScanExtensions(p[4 + size..])
  }

  function SkipVector8(p: bytes): Option<bytes> {
    if |p| < 1 then None else
    var n: nat := p[0];
    if |p| < 1 + n then None else Some(p[1 + n..])
  }

  function SkipVector16(p: bytes): Option<bytes> {
    if |p| < 2 then None else
    var n := Uint16(p[..2]);
    if |p| < 2 + n then None else Some(p[2 + n..])
  }

  function TakeVector16(p: bytes): Option<bytes> {
    if |p| < 2 then None else
    var n := Uint16(p[..2]);
    if |p| < 2 + n then None else Some(p[2..2 + n])
  }

  /** The extensions block of a ClientHello handshake message. */
  function Extensions(p: bytes): Option<bytes> {
    if |p| < 4 || p[0] != 1 then None
    else if |p[4..]| < 34 then None
    else
      match SkipVector8(p[4..][34..])
      case None => None
      case Some(afterSession) =>
        match SkipVector16(afterSession)
        case None => None
        case Some(afterSuites) =>
          match SkipVector8(afterSuites)
          case None => None
          case Some(afterCompression) => TakeVector16(afterCompression)
  }

  function HelloHost(p: bytes): bytes {
    match Extensions(p)
    case None => []
    case Some(e) => ScanExtensions(e)
  }

  function ParseSni(b: bytes): Sni {
    if |b| < 5 then NeedMore
    else if b[0] != 0x16 then Answer([])
    else
      var recLen := Uint16(b[3..5]);
      if |b| < 5 + recLen then NeedMore else Answer(HelloHost(b[5..5 + recLen]))
  }

  /** An answer, once given, never changes however many bytes follow. */
  lemma AnswerIsStable(b: bytes, more: bytes)
    requires ParseSni(b).Answer?
    ensures ParseSni(b + more) == ParseSni(b)
  {
    var c := b + more;
    assert c[3..5] == b[3..5] && c[0] == b[0];
    if b[0] == 0x16 {
      var recLen := Uint16(b[3..5]);
      assert c[5..5 + recLen] == b[5..5 + recLen];
    }
  }

  /** More bytes are asked for exactly while a handshake record, or what may become one, is not complete. */
  lemma AsksForMoreExactly(b: bytes)
    ensures ParseSni(b).NeedMore? <==>
              |b| < 5 || (b[0] == 22 && |b| < 5 + 256 * (b[3] as int) + b[4] as int)
  {
    if |b| >= 5 {
      BigEndian16(0, b[3..5]);
    }
  }

  /** What is not a handshake record, or not a ClientHello, has no host. */
  lemma OthersHaveNoHost(b: bytes)
    requires |b| >= 6 && ParseSni(b).Answer? && (b[0] != 22 || b[5] != 1)
    ensures ParseSni(b) == Answer([])
  {
    if b[0] == 22 {
      var p := b[5..5 + Uint16(b[3..5])];
      assert p != [] ==> p[0] == b[5];
    }
  }

  // ----- an answered host stands in the bytes -----

  /** At position i of s stands a host_name entry: type 0, a 16-bit length and the name. */
  ghost predicate EntryAt(s: bytes, i: nat, host: bytes) {
    && i + 3 + |host| <= |s| && s[i] == 0
    && 256 * (s[i + 1] as int) + s[i + 2] as int == |host|
    && s[i + 3..i + 3 + |host|] == host
  }

  /** An entry of a part is an entry of the whole. */
  lemma EntryOfPart(s: bytes, from: nat, to: nat, i: nat, host: bytes)
    requires from <= to <= |s| && EntryAt(s[from..to], i, host)
    ensures EntryAt(s, from + i, host)
  {
    var part, n := s[from..to], |host|;
    assert part[i] == s[from + i] && part[i + 1] == s[from + i + 1] && part[i + 2] == s[from + i + 2];
    forall k | 0 <= k < n ensures s[from + i + 3 + k] == host[k] {
      assert part[i + 3..i + 3 + n][k] == part[i + 3 + k];
    }
    assert s[from + i + 3..from + i + 3 + n] == host;
  }

  lemma {:induction false} NamesFoundAreThere(lst: bytes)
    requires ScanNames(lst).Found?
    ensures exists i: nat :: EntryAt(lst, i, ScanNames(lst).host)
    decreases |lst|
  {
    var n := Uint16(lst[1..3]);
    BigEndian16(0, lst[1..3]);
    if lst[0] == 0 {
      assert EntryAt(lst, 0, lst[3..3 + n]);
    } else {
      NamesFoundAreThere(lst[3 + n..]);
      var i: nat :| EntryAt(lst[3 + n..], i, ScanNames(lst).host);
      assert lst[3 + n..] == lst[3 + n..|lst|];
      EntryOfPart(lst, 3 + n, |lst|, i, ScanNames(lst).host);
    }
  }

  lemma ServerNameIsThere(ext: bytes)
    requires ScanServerName(ext).Found?
    ensures exists i: nat :: EntryAt(ext, i, ScanServerName(ext).host)
  {
    hide ScanNames, Uint16;
    var n := Uint16(ext[..2]);
    NamesFoundAreThere(ext[2..2 + n]);
    var i: nat :| EntryAt(ext[2..2 + n], i, ScanServerName(ext).host);
    EntryOfPart(ext, 2, 2 + n, i, ScanServerName(ext).host);
  }

  lemma {:induction false} ExtensionsFoundAreThere(p: bytes)
    requires ScanExtensions(p) != []
    ensures exists i: nat :: EntryAt(p, i, ScanExtensions(p))
    decreases |p|
  {
    hide ScanServerName, Uint16, EntryAt;
    var size, host := Uint16(p[2..4]), ScanExtensions(p);
    var ext := p[4..4 + size];
    if Uint16(p[..2]) == 0 && ScanServerName(ext).Found? {
      ServerNameIsThere(ext);
      var i: nat :| EntryAt(ext, i, host);
      EntryOfPart(p, 4, 4 + size, i, host);
    } else {
      ExtensionsFoundAreThere(p[4 + size..]);
      var i: nat :| EntryAt(p[4 + size..], i, host);
      assert p[4 + size..] == p[4 + size..|p|];
      EntryOfPart(p, 4 + size, |p|, i, host);
    }
  }

  /** What remains after skipping a vector is the end of the bytes. */
  ghost predicate IsEnd(rest: bytes, p: bytes) {
    |rest| <= |p| && rest == p[|p| - |rest|..]
  }

  lemma EndOfEnd(a: bytes, b: bytes, c: bytes)
    requires IsEnd(a, b) && IsEnd(b, c)
    ensures IsEnd(a, c)
  {
    assert c[|c| - |a|..] == c[|c| - |b|..][|b| - |a|..];
  }

  lemma SkippedIsEnd(p: bytes)
    ensures SkipVector8(p).Some? ==> IsEnd(SkipVector8(p).value, p)
    ensures SkipVector16(p).Some? ==> IsEnd(SkipVector16(p).value, p)
    ensures TakeVector16(p).Some? ==>
              |TakeVector16(p).value| + 2 <= |p| && TakeVector16(p).value == p[2..2 + |TakeVector16(p).value|]
  {
  }

  ghost predicate PartAt(s: bytes, i: nat, part: bytes) {
    i + |part| <= |s| && s[i..i + |part|] == part
  }

  lemma PartOfEnd(c: bytes, p: bytes, i: nat, part: bytes)
    requires IsEnd(c, p) && PartAt(c, i, part)
    ensures PartAt(p, |p| - |c| + i, part)
  {
    assert c[i..i + |part|] == p[|p| - |c|..][i..i + |part|];
  }

  /** The steps over the three vectors, each leaving an end of the message. */
  lemma ExtensionsSteps(p: bytes)
    requires Extensions(p).Some?
    ensures exists c :: IsEnd(c, p) && TakeVector16(c) == Extensions(p)
  {
    hide SkipVector8, SkipVector16, TakeVector16;
    var start := p[4..][34..];
    SkippedIsEnd(start);
    var a := SkipVector8(start).value;
    SkippedIsEnd(a);
    var b := SkipVector16(a).value;
    SkippedIsEnd(b);
    var c := SkipVector8(b).value;
    assert TakeVector16(c) == Extensions(p);
    assert IsEnd(start, p);
    hide Extensions, IsEnd;
    EndOfEnd(a, start, p);
    EndOfEnd(b, a, p);
    EndOfEnd(c, b, p);
  }

  /** The extensions are a stretch of the handshake message. */
  lemma ExtensionsArePart(p: bytes)
    requires Extensions(p).Some?
    ensures exists i: nat :: PartAt(p, i, Extensions(p).value)
  {
    hide Extensions, IsEnd;
    ExtensionsSteps(p);
    var c :| IsEnd(c, p) && TakeVector16(c) == Extensions(p);
    SkippedIsEnd(c);
    assert PartAt(c, 2, Extensions(p).value);
    EndIsShorter(c, p);
    PartOfEnd(c, p, 2, Extensions(p).value);
  }

  lemma EndIsShorter(c: bytes, p: bytes)
    requires IsEnd(c, p)
    ensures |c| <= |p|
  {
  }

  lemma EntryOfPlace(s: bytes, at: nat, part: bytes, i: nat, host: bytes)
    requires PartAt(s, at, part) && EntryAt(part, i, host)
    ensures EntryAt(s, at + i, host)
  {
    EntryOfPart(s, at, at + |part|, i, host);
  }

  /** The sniffer invents nothing: a host it answers stands in the bytes as a host_name entry. */
  lemma AnsweredHostIsThere(b: bytes)
    requires ParseSni(b).Answer? && ParseSni(b).host != []
    ensures exists i: nat :: EntryAt(b, i, ParseSni(b).host)
  {
    hide ScanExtensions, Extensions, Uint16, PartAt, EntryAt;
    var p := b[5..5 + Uint16(b[3..5])];
    var e, host := Extensions(p).value, ParseSni(b).host;
    ExtensionsArePart(p);
    var at: nat :| PartAt(p, at, e);
    ExtensionsFoundAreThere(e);
    var i: nat :| EntryAt(e, i, host);
    EntryOfPlace(p, at, e, i, host);
    EntryOfPart(b, 5, 5 + |p|, at + i, host);
  }

  // ----- well-formed ClientHellos (section 3 of RFC 6066) -----

  datatype Name = Name(nameType: byte, value: bytes)
  datatype Extension = ServerName(names: seq<Name>) | OtherExtension(extType: nat, data: bytes)
  datatype Hello = Hello(version: bytes, lengthBytes: bytes, versionAndRandom: bytes, sessionId: bytes, suites: bytes,
                         compression: bytes, extensions: seq<Extension>)

  function Vector16(data: bytes): bytes
    requires |data| < UINT16_LIMIT
  {
    PutUint16(|data|) + data
  }

  function Vector8(data: bytes): bytes
    requires |data| < 256
  {
    [|data|] + data
  }

  ghost predicate NamesFit(names: seq<Name>) {
    forall i :: 0 <= i < |names| ==> |names[i].value| < UINT16_LIMIT
  }

  ghost function NameBytes(names: seq<Name>): bytes
    requires NamesFit(names)
  {
    if names == [] then [] else [names[0].nameType] + Vector16(names[0].value) + NameBytes(names[1..])
  }

  ghost predicate ExtensionFits(e: Extension) {
    match e
    case ServerName(names) => NamesFit(names) && 2 + |NameBytes(names)| < UINT16_LIMIT
    case OtherExtension(t, data) => 0 < t < UINT16_LIMIT && |data| < UINT16_LIMIT
  }

  ghost function ExtensionBytes(e: Extension): bytes
    requires ExtensionFits(e)
  {
    match e
    case ServerName(names) => PutUint16(0) + Vector16(Vector16(NameBytes(names)))
    case OtherExtension(t, data) => PutUint16(t) + Vector16(data)
  }

  ghost predicate ExtensionsFit(es: seq<Extension>) {
    forall i :: 0 <= i < |es| ==> ExtensionFits(es[i])
  }

  ghost function ExtensionsBytes(es: seq<Extension>): bytes
    requires ExtensionsFit(es)
  {
    if es == [] then [] else ExtensionBytes(es[0]) + ExtensionsBytes(es[1..])
  }

  ghost predicate WellFormed(h: Hello) {
    && |h.version| == 2 && |h.lengthBytes| == 3 && |h.versionAndRandom| == 34
    && |h.sessionId| < 256 && |h.suites| < UINT16_LIMIT && |h.compression| < 256
    && ExtensionsFit(h.extensions) && |ExtensionsBytes(h.extensions)| < UINT16_LIMIT
  }

  ghost function HandshakeBytes(h: Hello): bytes
    requires WellFormed(h)
  {
    [1] + h.lengthBytes + (h.versionAndRandom + (Vector8(h.sessionId) + (Vector16(h.suites) +
      (Vector8(h.compression) + Vector16(ExtensionsBytes(h.extensions))))))
  }

  ghost function RecordBytes(h: Hello): bytes
    requires WellFormed(h) && |HandshakeBytes(h)| < UINT16_LIMIT
  {
    [0x16] + h.version + Vector16(HandshakeBytes(h))
  }

  /** The first host_name of the hello: the first entry of type 0 in its server-name extensions. */
  function FirstHostName(names: seq<Name>): Option<bytes> {
    if names == [] then None
    else if names[0].nameType == 0 then Some(names[0].value)
    else FirstHostName(names[1..])
  }

  function FirstHost(es: seq<Extension>): bytes {
    if es == [] then []
    else if es[0].ServerName? && FirstHostName(es[0].names).Some? then FirstHostName(es[0].names).value
    else FirstHost(es[1..])
  }

  // ----- the parser inverts the serialisation -----

  lemma Vector16Splits(data: bytes, rest: bytes)
    requires |data| < UINT16_LIMIT
    ensures var s := Vector16(data) + rest;
            && |s| >= 2 && Uint16(s[..2]) == |data| && |s| >= 2 + |data|
            && s[2..2 + |data|] == data && s[2 + |data|..] == rest
  {
    var s := Vector16(data) + rest;
    assert s[..2] == PutUint16(|data|);
  }

  lemma {:induction false} NamesScan(names: seq<Name>)
    requires NamesFit(names)
    ensures ScanNames(NameBytes(names)) ==
            match FirstHostName(names) case Some(h) => Found(h) case None => Exhausted
    decreases |names|
  {
    if names != [] {
      var n, rest := names[0], NameBytes(names[1..]);
      var s := NameBytes(names);
      Vector16Splits(n.value, rest);
      var tail := Vector16(n.value) + rest;
      assert s == [n.nameType] + tail;
      assert s[1..3] == tail[..2] && s[3..3 + |n.value|] == tail[2..2 + |n.value|];
      assert s[3 + |n.value|..] == tail[2 + |n.value|..];
      NamesScan(names[1..]);
    }
  }

  lemma ServerNameScans(names: seq<Name>)
    requires ExtensionFits(ServerName(names))
    ensures ScanServerName(Vector16(NameBytes(names))) ==
            match FirstHostName(names) case Some(h) => Found(h) case None => Exhausted
  {
    Vector16Splits(NameBytes(names), []);
    assert Vector16(NameBytes(names)) + [] == Vector16(NameBytes(names));
    NamesScan(names);
  }

  /** Splits an extension off a block: its type, its data and what follows. */
  lemma ExtensionSplits(t: nat, data: bytes, rest: bytes)
    requires t < UINT16_LIMIT && |data| < UINT16_LIMIT
    ensures var s := PutUint16(t) + Vector16(data) + rest;
            && |s| >= 4 + |data| && Uint16(s[..2]) == t && Uint16(s[2..4]) == |data|
            && s[4..4 + |data|] == data && s[4 + |data|..] == rest
  {
    var s := PutUint16(t) + Vector16(data) + rest;
    assert s[..2] == PutUint16(t) && s[2..4] == PutUint16(|data|);
  }

  lemma {:induction false} ExtensionsScan(es: seq<Extension>)
    requires ExtensionsFit(es)
    ensures ScanExtensions(ExtensionsBytes(es)) == FirstHost(es)
    decreases |es|
  {
    if es != [] {
      assert ExtensionFits(es[0]);
      var rest := ExtensionsBytes(es[1..]);
      ExtensionsScan(es[1..]);
      match es[0]
      case ServerName(names) =>
        ServerNameScans(names);
        ExtensionSplits(0, Vector16(NameBytes(names)), rest);
      case OtherExtension(t, data) =>
        ExtensionSplits(t, data, rest);
    }
  }

  lemma Vector8Skips(data: bytes, rest: bytes)
    requires |data| < 256
    ensures SkipVector8(Vector8(data) + rest) == Some(rest)
  {
    var s := Vector8(data) + rest;
    assert s[1 + |data|..] == rest;
  }

  lemma Vector16Skips(data: bytes, rest: bytes)
    requires |data| < UINT16_LIMIT
    ensures SkipVector16(Vector16(data) + rest) == Some(rest) && TakeVector16(Vector16(data)) == Some(data)
  {
    Vector16Splits(data, rest);
    Vector16Splits(data, []);
    assert Vector16(data) + [] == Vector16(data);
  }

  lemma FixedPart(lengthBytes: bytes, random: bytes, rest: bytes)
    requires |lengthBytes| == 3 && |random| == 34
    ensures var p := [1] + lengthBytes + (random + rest);
            |p| >= 4 && p[0] == 1 && |p[4..]| >= 34 && p[4..][34..] == rest
  {
    var p := [1] + lengthBytes + (random + rest);
    assert p[4..] == random + rest;
  }

  lemma HandshakeExtensions(h: Hello)
    requires WellFormed(h)
    ensures Extensions(HandshakeBytes(h)) == Some(ExtensionsBytes(h.extensions))
  {
    hide ExtensionsBytes, SkipVector8, SkipVector16, TakeVector16, Vector8, Vector16, ExtensionsFit;
    var exts := ExtensionsBytes(h.extensions);
    var afterCompression := Vector16(exts);
    var afterSuites := Vector8(h.compression) + afterCompression;
    var afterSession := Vector16(h.suites) + afterSuites;
    FixedPart(h.lengthBytes, h.versionAndRandom, Vector8(h.sessionId) + afterSession);
    Vector8Skips(h.sessionId, afterSession);
    Vector16Skips(h.suites, afterSuites);
    Vector8Skips(h.compression, afterCompression);
    Vector16Skips(exts, []);
  }

  lemma RecordParses(version: bytes, p: bytes, rest: bytes)
    requires |version| == 2 && |p| < UINT16_LIMIT
    ensures ParseSni([0x16] + version + Vector16(p) + rest) == Answer(HelloHost(p))
  {
    hide HelloHost;
    var b, tail := [0x16] + version + Vector16(p) + rest, Vector16(p) + rest;
    assert b == [0x16] + version + tail;
    Vector16Splits(p, rest);
    hide Vector16;
    assert b[3..5] == tail[..2] && b[5..5 + |p|] == tail[2..2 + |p|];
  }

  /** A well-formed ClientHello record, followed by anything, is answered with its first host_name. */
  lemma WellFormedHelloIsAnswered(h: Hello, rest: bytes)
    requires WellFormed(h) && |HandshakeBytes(h)| < UINT16_LIMIT
    ensures ParseSni(RecordBytes(h) + rest) == Answer(FirstHost(h.extensions))
  {
    hide HandshakeBytes, Extensions, ScanExtensions, ExtensionsBytes, Vector16, ParseSni;
    RecordParses(h.version, HandshakeBytes(h), rest);
    HandshakeExtensions(h);
    ExtensionsScan(h.extensions);
  }

  // ----- the program's loops -----

  method ParseNames(names: bytes) returns (r: Scan)
    ensures r == ScanNames(names)
  {
    var lst := names;
    while |lst| >= 3
      invariant ScanNames(lst) == ScanNames(names)
      decreases |lst|
    {
      var nameType, nameLen := lst[0], Uint16(lst[1..3]);
      if |lst| < 3 + nameLen {
        return Malformed;
      }
      if nameType == 0 {
        return Found(lst[3..3 + nameLen]);
      }
      lst := lst[3 + nameLen..];
    }
    r := Exhausted;
  }

  method ParseExtensions(block: bytes) returns (host: bytes)
    ensures host == ScanExtensions(block)
  {
    var p := block;
    while |p| >= 4
      invariant ScanExtensions(p) == ScanExtensions(block)
      decreases |p|
    {
      var extType, extSize := Uint16(p[..2]), Uint16(p[2..4]);
      if |p| < 4 + extSize {
        return [];
      }
      var ext := p[4..4 + extSize];
      p := p[4 + extSize..];
      if extType == 0 {
        if |ext| < 2 {
          return [];
        }
        var listLen := Uint16(ext[..2]);
        if |ext| < 2 + listLen {
          return [];
        }
        var found := ParseNames(ext[2..2 + listLen]);
        match found
        case Found(h) => return h;
        case Malformed => return [];
        case Exhausted =>
      }
    }
    host := [];
  }

  method ParseSNI(b: bytes) returns (r: Sni)
    ensures r == ParseSni(b)
  {
    if |b| < 5 {
      return NeedMore;
    }
    if b[0] != 0x16 {
      return Answer([]);
    }
    var recLen := Uint16(b[3..5]);
    if |b| < 5 + recLen {
      return NeedMore;
    }
    var host := ParseHello(b[5..5 + recLen]);
    r := Answer(host);
  }

  method ParseHello(record: bytes) returns (host: bytes)
    ensures host == HelloHost(record)
  {
    var block := FindExtensions(record);
    if block.None? {
      return [];
    }
    host := ParseExtensions(block.value);
  }

  /** Steps over the handshake header, version and random, then over three length-prefixed vectors. */
  method FindExtensions(record: bytes) returns (r: Option<bytes>)
    ensures r == Extensions(record)
  {
    hide Uint16;
    var p := record;
    if |p| < 4 || p[0] != 1 {
      return None;
    }
    p := p[4..];
    if |p| < 34 {
      return None;
    }
    p := p[34..];
    ghost var session := p;
    if |p| < 1 {
      return None;
    }
    var sidLen: nat := p[0];
    if |p| < 1 + sidLen {
      return None;
    }
    p := p[1 + sidLen..];
    assert SkipVector8(session) == Some(p);
    hide SkipVector8;
    ghost var suites := p;
    if |p| < 2 {
      return None;
    }
    var csLen := Uint16(p[..2]);
    if |p| < 2 + csLen {
      return None;
    }
    p := p[2 + csLen..];
    assert SkipVector16(suites) == Some(p);
    hide SkipVector16;
    r := AfterCompression(p);
  }

  method AfterCompression(rest: bytes) returns (r: Option<bytes>)
    ensures r == match SkipVector8(rest) case None => None case Some(q) => TakeVector16(q)
  {
    var p := rest;
    if |p| < 1 {
      return None;
    }
    var cmLen: nat := p[0];
    if |p| < 1 + cmLen {
      return None;
    }
    p := p[1 + cmLen..];
    if |p| < 2 {
      return None;
    }
    var extLen := Uint16(p[..2]);
    if |p| < 2 + extLen {
      return None;
    }
    r := Some(p[2..2 + extLen]);
  }

  /** The connection wrapper: `fed` is everything read through it. */
  class SniSniffer {
    var buf: bytes
    var sni: bytes
    var done: bool
    ghost var fed: bytes

    /** While undecided the buffer is the whole stream so far; once decided the answer is that of the whole
        stream so far, or the stream outgrew the buffer undecided and the host stays unknown. */
    ghost predicate Valid()
      reads this
    {
      && (!done ==> buf == fed && |buf| <= SNIFF_LIMIT && ParseSni(buf).NeedMore? && sni == [])
      && (done ==> buf == [] && (ParseSni(fed) == Answer(sni) || (|fed| > SNIFF_LIMIT && sni == [])))
    }

    constructor ()
      ensures Valid() && fed == [] && !done
    {
      buf, sni, done, fed := [], [], false, [];
    }

    method Read(p: bytes)
      requires Valid()
      modifies this
      ensures Valid() && fed == old(fed) + p
      ensures old(done) ==> done && sni == old(sni)
      ensures |fed| <= SNIFF_LIMIT ==> (done <==> ParseSni(fed).Answer?) && (done ==> ParseSni(fed) == Answer(sni))
    {
      if ParseSni(fed).Answer? {
        AnswerIsStable(fed, p);
      }
      fed := fed + p;
      if |p| > 0 {
        if !done {
          if |buf| + |p| <= SNIFF_LIMIT {
            buf := buf + p;
            var r := ParseSNI(buf);
            if r.Answer? {
              sni := r.host;
              done := true;
              buf := [];
            }
          } else {
            done := true;
            buf := [];
          }
        }
      } else {
        assert old(fed) + p == old(fed);
      }
    }
  }
}
