/** One direction of an ARQ session over a datagram network that may lose, duplicate and reorder: the sending
    half of one Controller, the receiving half of the other, and the set of datagrams ever put on the wire.
    Any datagram of that set may be taken any number of times or never. Concurrent Send calls, HandleAck, the
    retransmission timer and the receive loop interleave between steps. Send takes four steps, HandleData two and
    HandleAck three: its buffer stage, its credit stage and loss recovery. Each of those three, and a whole round
    of the timer, merges the many short critical sections of its loop into one step. */
module Session {
  import opened Bytes
  import opened AckWire
  import opened AckTracking
  import opened Ordering
  import opened RttEstimation
  import opened BandwidthEstimation
  import opened Congestion
  import opened SendBuffering
  import opened ArqSender
  import opened Reordering

  const SEND_BUF_SIZE := 2048
  const RECV_BUF_SIZE := 1024
  const MAX_STREAMS := 256
  const MAX_PAYLOAD := 1340
  const MAX_HELD := 766
  const MAX_BUFFERED := 768

  // ----- state -----

  /** How far one call of Controller.Send has come. */
  datatype Phase = Waiting | Slotted | Numbered | Stored

  /** A Send in progress; its packet has number 0 until it is numbered. */
  datatype Call = Call(phase: Phase, packet: Packet, snap: Snapshot)

  /** The sending side of a stream: the bytes passed to Write, those the current Write has not cut into a chunk
      yet, how many bytes failed Writes gave up uncut, the chunks in sequence order, how many bytes had been given
      up when each was cut, and the packet number of every chunk that got one. */
  datatype Stream = Stream(
    written: bytes, todo: bytes, lost: nat, chunks: seq<bytes>, skipped: seq<nat>, nums: map<nat, nat>)

  const NEW_STREAM := Stream([], [], 0, [], [], map[])

  /** Where the (single) receive loop of the sender is inside HandleAck. */
  datatype Handling = Ready | Crediting(ack: Ack, credit: Credit) | Recovering(ack: Ack)

  /** `inserting` is the data packet HandleData has recorded and not yet put into a receive buffer. */
  datatype Receiver = Receiver(log: AckLog, bufs: map<nat, Reorder>, inserting: Option<Packet>, closed: bool)

  datatype Network = Network(data: set<Packet>, acks: set<bytes>)

  /** History: every numbered packet, every number the receiver recorded, the highest cumulative number the
      sender processed, slots taken, numbers acknowledged, positions inserted, and buffers already removed. */
  datatype History = History(
    sent: map<nat, Packet>, seen: set<nat>, highCum: nat, slots: nat, acknowledged: set<nat>,
    got: map<nat, set<nat>>, removed: map<nat, Reorder>)

  datatype World = World(
    snd: Sender, calls: map<nat, Call>, handling: Handling, streams: map<nat, Stream>,
    rcv: Receiver, net: Network, hist: History)

  function Initial(now: int): World {
    World(NewSender(now), map[], Ready, map[],
          Receiver(FRESH_LOG, map[], None, false), Network({}, {}),
          History(map[], {}, 0, 0, {}, map[], map[]))
  }

  // ----- steps -----

  datatype Step =
    | Open(stream: nat)
    | Write(stream: nat, data: bytes)
    | Begin(call: nat, stream: nat)
    | Control(call: nat, stream: nat, msgType: byte, data: bytes)
    | Acquire(call: nat)
    | Number(call: nat, now: int)
    | Store(call: nat, now: int)
    | Transmit(call: nat)
    | Abandon(call: nat)
    | TakeAck(datagram: bytes, now: int)
    | CreditAck(now: int)
    | RecoverAck(now: int)
    | Tick(now: int)
    | CloseSender
    | Receive(packet: Packet)
    | InsertData
    | SendAck(ack: Ack)
    | Remove(stream: nat)
    | CloseReceiver

  predicate IsData(p: Packet) {
    p.msgType == MSG_STREAM_DATA
  }

  predicate InPhase(calls: map<nat, Call>, c: nat, phase: Phase) {
    c in calls && calls[c].phase == phase
  }

  /** A chunk of stream s is between Write and its packet number, or still being sent. */
  ghost predicate Busy(calls: map<nat, Call>, s: nat) {
    exists c :: c in calls && IsData(calls[c].packet) && calls[c].packet.streamID == s
  }

  ghost predicate Enabled(w: World, step: Step) {
    match step
    case Open(s) => s !in w.streams && |w.rcv.bufs| < MAX_STREAMS
    case Write(s, _) => s in w.streams && w.streams[s].todo == [] && !Busy(w.calls, s)
    case Begin(c, s) => c !in w.calls && s in w.streams && w.streams[s].todo != [] && !Busy(w.calls, s)
    case Control(c, _, t, _) => c !in w.calls && t != MSG_STREAM_DATA
    case Acquire(c) => InPhase(w.calls, c, Waiting) && CanAcquire(w.snd.window)
    case Number(c, _) => InPhase(w.calls, c, Slotted) && w.snd.next + 1 < UINT32_LIMIT
    case Store(c, _) => InPhase(w.calls, c, Numbered)
    case Transmit(c) => InPhase(w.calls, c, Stored)
    case Abandon(c) => (InPhase(w.calls, c, Waiting) && w.snd.closed) || InPhase(w.calls, c, Stored)
    case TakeAck(d, _) => w.handling.Ready? && d in w.net.acks && Decoded(d).Ok? && !w.snd.closed
    case CreditAck(_) => w.handling.Crediting?
    case RecoverAck(_) => w.handling.Recovering?
    case Tick(_) => true
    case CloseSender => true
    case Receive(p) => p in w.net.data && w.rcv.inserting.None? && (IsData(p) ==> !w.rcv.closed)
    case InsertData => w.rcv.inserting.Some?
    case SendAck(a) => Reports(a, w.rcv.log)
    case Remove(s) => s in w.rcv.bufs
    case CloseReceiver => true
  }

  function Begun(calls: map<nat, Call>, c: nat, p: Packet): map<nat, Call> {
    calls[c := Call(Waiting, p, Snapshot(0, 0, 0))]
  }

  /** The packets of the listed numbers, as the buffer re-sends them. */
  ghost function Datagrams(m: Packets, ks: seq<nat>): set<Packet> {
    set k | k in ks && k in m :: m[k].packet
  }

  function OpenStep(w: World, s: nat): World {
    w.(streams := w.streams[s := NEW_STREAM],
       rcv := w.rcv.(bufs := w.rcv.bufs[s := NewReorder(RECV_BUF_SIZE)]),
       hist := w.hist.(got := w.hist.got[s := {}]))
  }

  /** A stream has one writer, so a Write starts when the one before it has returned. */
  function WriteStep(w: World, s: nat, data: bytes): World
    requires s in w.streams
  {
    var st := w.streams[s];
    w.(streams := w.streams[s := st.(written := st.written + data, todo := data)])
  }

  function Cut(st: Stream): Stream {
    var chunk := Take(st.todo, MAX_PAYLOAD);
    st.(chunks := st.chunks + [chunk], skipped := st.skipped + [st.lost], todo := st.todo[|chunk|..])
  }

  /** udpStream.Write cuts the next chunk, takes the next sequence number and calls Send. */
  function BeginStep(w: World, c: nat, s: nat): World
    requires s in w.streams
  {
    var st := w.streams[s];
    w.(streams := w.streams[s := Cut(st)],
       calls := Begun(w.calls, c, Packet(MSG_STREAM_DATA, 0, s, |st.chunks|, Take(st.todo, MAX_PAYLOAD))))
  }

  function ControlStep(w: World, c: nat, s: nat, t: byte, data: bytes): World {
    w.(calls := Begun(w.calls, c, Packet(t, 0, s, 0, data)))
  }

  function AcquireStep(w: World, c: nat): World
    requires c in w.calls
  {
    w.(snd := w.snd.(window := Acquired(w.snd.window)),
       calls := w.calls[c := w.calls[c].(phase := Slotted)],
       hist := w.hist.(slots := w.hist.slots + 1))
  }

  /** The streams a numbering leaves behind. */
  function NumberedStreams(streams: map<nat, Stream>, p: Packet, n: nat): map<nat, Stream> {
    if IsData(p) && p.streamID in streams
    then streams[p.streamID := streams[p.streamID].(nums := streams[p.streamID].nums[p.seqNum := n])] else streams
  }

  function NumberStep(w: World, c: nat, now: int): World
    requires c in w.calls
  {
    var n := w.snd.next + 1;
    var p := w.calls[c].packet.(pktNum := n);
    w.(snd := w.snd.(next := n),
       calls := w.calls[c := Call(Numbered, p, SnapshotOf(w.snd.window.bwe, now))],
       streams := NumberedStreams(w.streams, p, n),
       hist := w.hist.(sent := w.hist.sent[n := p]))
  }

  function StoreStep(w: World, c: nat, now: int): World
    requires c in w.calls
  {
    var call := w.calls[c];
    w.(snd := w.snd.(packets := w.snd.packets[call.packet.pktNum := NewlySent(call.packet, now, call.snap)]),
       calls := w.calls[c := call.(phase := Stored)])
  }

  function TransmitStep(w: World, c: nat): World
    requires c in w.calls
  {
    w.(net := w.net.(data := w.net.data + {w.calls[c].packet}), calls := w.calls - {c})
  }

  function GivenUp(st: Stream): Stream {
    st.(todo := [], lost := st.lost + |st.todo|)
  }

  function AbandonedStreams(streams: map<nat, Stream>, p: Packet): map<nat, Stream> {
    if IsData(p) && p.streamID in streams then streams[p.streamID := GivenUp(streams[p.streamID])] else streams
  }

  /** Send returns an error, because the session is closed or the socket refused the datagram, and Write returns
      it: the bytes not cut yet are given up, while a packet that was stored stays in the send buffer. The stream
      is not closed, so it may be written again. */
  function AbandonStep(w: World, c: nat): World
    requires c in w.calls
  {
    w.(calls := w.calls - {c}, streams := AbandonedStreams(w.streams, w.calls[c].packet))
  }

  ghost function TakeAckStep(w: World, a: Ack, now: int): World
    requires a.Valid()
  {
    w.(snd := BufferStage(w.snd, a, now), handling := Crediting(a, CreditOf(w.snd, a, now)),
       hist := w.hist.(highCum := Max(w.hist.highCum, a.cumAck),
                       acknowledged := w.hist.acknowledged + NewlyAcked(w.snd.packets, a)))
  }

  function CreditStep(w: World, now: int): World
    requires w.handling.Crediting? && Consistent(w.snd.window.bwe)
  {
    w.(snd := CreditStage(w.snd, w.handling.credit, now), handling := Recovering(w.handling.ack))
  }

  ghost function RecoverStep(w: World, a: Ack, now: int): World
    requires a.Valid()
  {
    w.(snd := RecoverStage(w.snd, a, now), handling := Ready,
       net := w.net.(data := w.net.data + Datagrams(w.snd.packets, RecoveryBatch(w.snd, a, now))))
  }

  ghost function TickStep(w: World, now: int): World {
    w.(snd := Ticked(w.snd, now),
       net := w.net.(data := w.net.data + Datagrams(w.snd.packets, TickResent(w.snd, now))))
  }

  function ReceiveStep(w: World, p: Packet): World {
    w.(rcv := w.rcv.(log := Record(w.rcv.log, p.pktNum), inserting := if IsData(p) then Some(p) else None),
       hist := w.hist.(seen := w.hist.seen + {p.pktNum}))
  }

  function InsertStep(w: World): World
    requires w.rcv.inserting.Some?
  {
    var p := w.rcv.inserting.value;
    var s := p.streamID;
    if s !in w.rcv.bufs || s !in w.hist.got then w.(rcv := w.rcv.(inserting := None)) else
    w.(rcv := w.rcv.(inserting := None, bufs := w.rcv.bufs[s := Inserted(w.rcv.bufs[s], p.seqNum, p.data)]),
       hist := w.hist.(got := w.hist.got[s := w.hist.got[s] + {p.seqNum}]))
  }

  function SendAckStep(w: World, a: Ack): World
    requires a.Valid()
  {
    w.(net := w.net.(acks := w.net.acks + {Encoded(a)}), rcv := w.rcv.(log := AckTracking.Sent(w.rcv.log)))
  }

  function RemoveStep(w: World, s: nat): World
    requires s in w.rcv.bufs
  {
    w.(rcv := w.rcv.(bufs := w.rcv.bufs - {s}),
       hist := w.hist.(removed := w.hist.removed[s := w.rcv.bufs[s]]))
  }

  /** What a step needs beyond being enabled to be computed; the invariant provides it. */
  ghost predicate Sane(w: World) {
    Consistent(w.snd.window.bwe) && (w.handling.Recovering? ==> w.handling.ack.Valid())
  }

  ghost function Next(w: World, step: Step): World
    requires Enabled(w, step) && Sane(w)
  {
    match step
    case Open(s) => OpenStep(w, s)
    case Write(s, data) => WriteStep(w, s, data)
    case Begin(c, s) => BeginStep(w, c, s)
    case Control(c, s, t, data) => ControlStep(w, c, s, t, data)
    case Acquire(c) => AcquireStep(w, c)
    case Number(c, now) => NumberStep(w, c, now)
    case Store(c, now) => StoreStep(w, c, now)
    case Transmit(c) => TransmitStep(w, c)
    case Abandon(c) => AbandonStep(w, c)
    case TakeAck(d, now) => DecodedValid(d); TakeAckStep(w, Decoded(d).value, now)
    case CreditAck(now) => CreditStep(w, now)
    case RecoverAck(now) => RecoverStep(w, w.handling.ack, now)
    case Tick(now) => TickStep(w, now)
    case CloseSender => w.(snd := w.snd.(closed := true))
    case Receive(p) => ReceiveStep(w, p)
    case InsertData => InsertStep(w)
    case SendAck(a) => SendAckStep(w, a)
    case Remove(s) => RemoveStep(w, s)
    case CloseReceiver => w.(rcv := w.rcv.(closed := true))
  }

  // ----- the invariant, in parts -----

  /** The packet left Controller.Send's critical section: it is in the buffer or was removed from it. */
  ghost predicate IsStored(k: nat, packets: Packets, highCum: nat) {
    k in packets || k <= highCum
  }

  ghost predicate AckSound(a: Ack, log: AckLog, seen: set<nat>) {
    && a.Valid() && a.cumAck <= log.cumAck
    && forall k :: a.IsReceived(k) ==> k in seen
  }

  /** Only packets that were stored, and only true acknowledgements, are on the wire. */
  ghost predicate NetOk(net: Network, sent: map<nat, Packet>, packets: Packets, highCum: nat, log: AckLog,
                        seen: set<nat>) {
    && (forall p :: p in net.data ==>
          p.pktNum in sent && sent[p.pktNum] == p && IsStored(p.pktNum, packets, highCum))
    && (forall d :: d in net.acks ==> Decoded(d).Ok? && AckSound(Decoded(d).value, log, seen))
  }

  /** The receiver's log stands for the set of recorded numbers, all of which were stored. */
  ghost predicate LogOk(log: AckLog, sent: map<nat, Packet>, packets: Packets, highCum: nat, seen: set<nat>) {
    && Tracks(log, seen)
    && highCum <= log.cumAck
    && forall k :: k in seen ==> k in sent && IsStored(k, packets, highCum)
  }

  ghost predicate HoldsNumber(calls: map<nat, Call>, c: nat, k: nat) {
    InPhase(calls, c, Numbered) && calls[c].packet.pktNum == k
  }

  /** Numbers 1..next are given out once each; a given number is in the buffer, covered by the highest
      processed cumulative acknowledgement, or held by a call between numbering and storing. */
  ghost predicate NumbersOk(next: nat, sent: map<nat, Packet>, packets: Packets, highCum: nat, calls: map<nat, Call>) {
    && next < UINT32_LIMIT
    && (forall k :: k in sent <==> 1 <= k <= next)
    && (forall k :: k in sent ==> sent[k].pktNum == k)
    && (forall k :: k in packets ==> k in sent && packets[k].packet == sent[k] && k > highCum)
    && (forall k :: k in sent && !IsStored(k, packets, highCum) ==> exists c :: HoldsNumber(calls, c, k))
    && (forall c :: c in calls && calls[c].phase in {Numbered, Stored} ==>
          calls[c].packet.pktNum in sent && sent[calls[c].packet.pktNum] == calls[c].packet)
    && (forall c :: InPhase(calls, c, Stored) ==> IsStored(calls[c].packet.pktNum, packets, highCum))
    && (forall c :: InPhase(calls, c, Numbered) ==> !IsStored(calls[c].packet.pktNum, packets, highCum))
    && (forall c, d :: InPhase(calls, c, Numbered) && InPhase(calls, d, Numbered) && c != d ==>
          calls[c].packet.pktNum != calls[d].packet.pktNum)
  }

  /** A selectively acknowledged packet was recorded and lies within 256 of the processed cumulative number. */
  ghost predicate AckedOk(packets: Packets, seen: set<nat>, highCum: nat) {
    forall k :: k in packets && packets[k].acked ==> k in seen && k <= highCum + SACK_WIDTH
  }

  ghost predicate AcknowledgedOk(acknowledged: set<nat>, sent: map<nat, Packet>, packets: Packets, highCum: nat) {
    forall k :: k in acknowledged <==> k in sent && (k <= highCum || (k in packets && packets[k].acked))
  }

  /** Calls that own a slot but whose packet is not in the buffer yet. */
  function Holders(calls: map<nat, Call>): set<nat> {
    set c | c in calls && calls[c].phase in {Slotted, Numbered}
  }

  /** Acknowledged packets whose slots OnAck has not returned yet. */
  function Owed(h: Handling): nat {
    if h.Crediting? then h.credit.acked else 0
  }

  /** Conservation of slots and of delivered bytes. */
  ghost predicate CountsOk(w: Window, unacked: set<nat>, holders: set<nat>, owed: nat, slots: nat,
                           acknowledged: set<nat>) {
    && Sized(w) && Consistent(w.bwe)
    && w.inFlight == |unacked| + |holders| + owed
    && slots == |unacked| + |holders| + |acknowledged|
    && owed <= |acknowledged|
    && w.bwe.delivered == PACKET_MSS * (|acknowledged| - owed)
  }

  function Flat(chunks: seq<bytes>): bytes {
    if chunks == [] then [] else Flat(chunks[..|chunks| - 1]) + chunks[|chunks| - 1]
  }

  /** Where chunk i starts in the bytes passed to Write. */
  function Offset(st: Stream, i: nat): nat
    requires i < |st.chunks| && i < |st.skipped|
  {
    |Flat(st.chunks[..i])| + st.skipped[i]
  }

  /** Chunk i is a stretch of the bytes passed to Write. */
  ghost predicate ChunkOk(st: Stream, i: nat)
    requires i < |st.chunks| && i < |st.skipped|
  {
    && 0 < |st.chunks[i]| && st.skipped[i] <= st.lost
    && Offset(st, i) + |st.chunks[i]| <= |st.written|
    && st.written[Offset(st, i)..Offset(st, i) + |st.chunks[i]|] == st.chunks[i]
  }

  /** Every byte passed to Write was cut, given up or waits; what waits is the end of it. */
  ghost predicate BytesOk(st: Stream) {
    && |st.skipped| == |st.chunks|
    && |Flat(st.chunks)| + st.lost + |st.todo| == |st.written|
    && st.written[|st.written| - |st.todo|..] == st.todo
    && (forall i :: 0 <= i < |st.chunks| ==> ChunkOk(st, i))
    && (forall i, j :: 0 <= i < j < |st.chunks| ==> st.skipped[i] <= st.skipped[j])
  }

  ghost predicate Rising(nums: map<nat, nat>) {
    forall i, j :: i in nums && j in nums && i < j ==> nums[i] < nums[j]
  }

  ghost predicate StreamOk(s: nat, st: Stream, sent: map<nat, Packet>) {
    && BytesOk(st)
    && Rising(st.nums)
    && forall i :: i in st.nums ==>
         i < |st.chunks| && st.nums[i] in sent &&
         sent[st.nums[i]] == Packet(MSG_STREAM_DATA, st.nums[i], s, i, st.chunks[i])
  }

  /** Every numbered data packet is chunk seqNum of an open stream, and no chunk is numbered twice. */
  ghost predicate StreamsOk(streams: map<nat, Stream>, sent: map<nat, Packet>) {
    && (forall s :: s in streams ==> StreamOk(s, streams[s], sent))
    && forall k :: k in sent && IsData(sent[k]) ==>
         sent[k].streamID in streams && sent[k].seqNum in streams[sent[k].streamID].nums &&
         streams[sent[k].streamID].nums[sent[k].seqNum] == k
  }

  /** A data call not yet numbered carries the last chunk of its stream. */
  ghost predicate UnnumberedOk(c: Call, streams: map<nat, Stream>) {
    IsData(c.packet) && c.phase in {Waiting, Slotted} ==>
      && c.packet.pktNum == 0
      && c.packet.streamID in streams
      && var st := streams[c.packet.streamID];
         && |st.chunks| == c.packet.seqNum + 1 && c.packet.seqNum !in st.nums
         && c.packet.data == st.chunks[c.packet.seqNum]
  }

  ghost predicate DataCall(calls: map<nat, Call>, c: nat, s: nat) {
    c in calls && IsData(calls[c].packet) && calls[c].packet.streamID == s
  }

  ghost predicate CallsOk(calls: map<nat, Call>, streams: map<nat, Stream>) {
    && (forall c :: c in calls ==> UnnumberedOk(calls[c], streams))
    && (forall c, d, s :: DataCall(calls, c, s) && DataCall(calls, d, s) ==> c == d)
  }

  ghost predicate Carries(calls: map<nat, Call>, c: nat, s: nat, i: nat) {
    DataCall(calls, c, s) && calls[c].phase in {Waiting, Slotted} && calls[c].packet.seqNum == i
  }

  /** A chunk without a number is on its way, or its Send found the session closed. */
  ghost predicate HoleOk(calls: map<nat, Call>, closed: bool, s: nat, i: nat) {
    closed || exists c :: Carries(calls, c, s, i)
  }

  ghost predicate IsHole(st: Stream, i: nat) {
    i < |st.chunks| && i !in st.nums
  }

  /** Once a chunk is left without a number, nothing sent on its stream after it is ever acknowledged. */
  ghost predicate HolesOk(streams: map<nat, Stream>, calls: map<nat, Call>, closed: bool, acknowledged: set<nat>) {
    && (forall s: nat, i: nat :: s in streams && IsHole(streams[s], i) ==> HoleOk(calls, closed, s, i))
    && (forall s: nat, i: nat, j: nat ::
          s in streams && IsHole(streams[s], i) && j in streams[s].nums && i < j ==>
          closed && streams[s].nums[j] !in acknowledged)
  }

  /** The receive buffer of an open stream represents exactly the positions inserted, and misses none that
      was recorded except the one the receive loop is about to insert. */
  ghost predicate BufferOk(r: Reorder, got: set<nat>, st: Stream, seen: set<nat>, inserting: Option<Packet>) {
    && Represents(r, st.chunks, got)
    && r.maxBuf == RECV_BUF_SIZE && |r.buffer| <= MAX_HELD
    && (forall i :: i in got ==> i in st.nums && st.nums[i] in seen)
    && (forall i :: i in st.nums && st.nums[i] in seen ==>
          i in got || (inserting.Some? && inserting.value.pktNum == st.nums[i]))
  }

  /** Every stream has either a receive buffer in order or a removed one whose output stands. */
  ghost predicate ReceiveOk(bufs: map<nat, Reorder>, inserting: Option<Packet>, streams: map<nat, Stream>,
                            seen: set<nat>, got: map<nat, set<nat>>, removed: map<nat, Reorder>) {
    && bufs.Keys + removed.Keys == streams.Keys && got.Keys == streams.Keys
    && bufs.Keys !! removed.Keys
    && (forall s :: s in bufs ==> BufferOk(bufs[s], got[s], streams[s], seen, inserting))
    && (forall s :: s in removed ==> removed[s].delivered <= streams[s].chunks)
  }

  ghost predicate InsertingOk(inserting: Option<Packet>, data: set<Packet>, seen: set<nat>) {
    inserting.Some? ==> inserting.value in data && IsData(inserting.value) && inserting.value.pktNum in seen
  }

  ghost predicate HandlingOk(h: Handling) {
    h.Ready? || h.ack.Valid()
  }

  ghost predicate RtoOk(rtt: Rtt) {
    MIN_RTO <= rtt.rto <= MAX_RTO
  }

  ghost predicate Inv(w: World) {
    && NetOk(w.net, w.hist.sent, w.snd.packets, w.hist.highCum, w.rcv.log, w.hist.seen)
    && LogOk(w.rcv.log, w.hist.sent, w.snd.packets, w.hist.highCum, w.hist.seen)
    && NumbersOk(w.snd.next, w.hist.sent, w.snd.packets, w.hist.highCum, w.calls)
    && AckedOk(w.snd.packets, w.hist.seen, w.hist.highCum)
    && AcknowledgedOk(w.hist.acknowledged, w.hist.sent, w.snd.packets, w.hist.highCum)
    && CountsOk(w.snd.window, Unacked(w.snd.packets), Holders(w.calls), Owed(w.handling), w.hist.slots,
                w.hist.acknowledged)
    && StreamsOk(w.streams, w.hist.sent)
    && CallsOk(w.calls, w.streams)
    && HolesOk(w.streams, w.calls, w.snd.closed, w.hist.acknowledged)
    && ReceiveOk(w.rcv.bufs, w.rcv.inserting, w.streams, w.hist.seen, w.hist.got, w.hist.removed)
    && InsertingOk(w.rcv.inserting, w.net.data, w.hist.seen)
    && HandlingOk(w.handling)
    && RtoOk(w.snd.rtt)
  }

  lemma InitialInv(now: int)
    ensures Inv(Initial(now))
  {
    hide NetOk, LogOk, NumbersOk, AckedOk, AcknowledgedOk, CountsOk, StreamsOk, CallsOk, HolesOk, ReceiveOk;
    hide InsertingOk;
    InitialSender(now);
    InitialReceiver(now);
  }

  lemma InitialSender(now: int)
    ensures var w := Initial(now);
            && NumbersOk(w.snd.next, w.hist.sent, w.snd.packets, w.hist.highCum, w.calls)
            && AckedOk(w.snd.packets, w.hist.seen, w.hist.highCum)
            && AcknowledgedOk(w.hist.acknowledged, w.hist.sent, w.snd.packets, w.hist.highCum)
            && CountsOk(w.snd.window, Unacked(w.snd.packets), Holders(w.calls), Owed(w.handling), w.hist.slots,
                        w.hist.acknowledged)
  {
    assert Unacked(map[]) == {};
    assert Holders(map[]) == {};
  }

  lemma InitialReceiver(now: int)
    ensures var w := Initial(now);
            && NetOk(w.net, w.hist.sent, w.snd.packets, w.hist.highCum, w.rcv.log, w.hist.seen)
            && LogOk(w.rcv.log, w.hist.sent, w.snd.packets, w.hist.highCum, w.hist.seen)
            && StreamsOk(w.streams, w.hist.sent) && CallsOk(w.calls, w.streams)
            && HolesOk(w.streams, w.calls, w.snd.closed, w.hist.acknowledged)
            && ReceiveOk(w.rcv.bufs, w.rcv.inserting, w.streams, w.hist.seen, w.hist.got, w.hist.removed)
            && InsertingOk(w.rcv.inserting, w.net.data, w.hist.seen)
  {
  }
}
