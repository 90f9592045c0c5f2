/** Two concrete runs of a session that show where a condition of the theorems is needed. */
module SessionWitnesses {
  import opened Bytes
  import opened AckTracking
  import opened Ordering
  import opened RttEstimation
  import opened BandwidthEstimation
  import opened Congestion
  import opened SendBuffering
  import opened ArqSender
  import opened Reordering
  import opened Session
  import opened SessionTheorems

  /** Two steps lead from w to w'. */
  ghost predicate Leads(w: World, s: Step, t: Step, w': World) {
    exists v :: Goes(w, s, v) && Goes(v, t, w')
  }

  lemma RunBack(w: World, s: seq<Step>, i: nat, w': World, end: World)
    requires i + 2 <= |s| && Leads(w, s[i], s[i + 1], w') && IsRun(w', s[i + 2..]) && After(w', s[i + 2..]) == end
    ensures IsRun(w, s[i..]) && After(w, s[i..]) == end
  {
    hide Enabled, Sane, Next;
    assert s[i..][1..] == s[i + 1..] && s[i + 1..][1..] == s[i + 2..];
  }

  // ----- the steps used here, each with its guard -----

  lemma ControlGoes(w: World, c: nat, s: nat, t: byte, data: bytes)
    requires Sane(w) && c !in w.calls && t != MSG_STREAM_DATA
    ensures Goes(w, Control(c, s, t, data), ControlStep(w, c, s, t, data))
  {
    hide ControlStep;
  }

  lemma OpenGoes(w: World, s: nat)
    requires Sane(w) && s !in w.streams && |w.rcv.bufs| < MAX_STREAMS
    ensures Goes(w, Open(s), OpenStep(w, s))
  {
    hide OpenStep;
  }

  lemma WriteGoes(w: World, s: nat, data: bytes)
    requires Sane(w) && s in w.streams && w.streams[s].todo == [] && w.calls == map[]
    ensures Goes(w, Write(s, data), WriteStep(w, s, data))
  {
    hide WriteStep;
  }

  lemma BeginGoes(w: World, c: nat, s: nat)
    requires Sane(w) && s in w.streams && w.streams[s].todo != [] && w.calls == map[]
    ensures Goes(w, Begin(c, s), BeginStep(w, c, s))
  {
    hide BeginStep;
  }

  lemma AcquireGoes(w: World, c: nat)
    requires Sane(w) && InPhase(w.calls, c, Waiting) && CanAcquire(w.snd.window)
    ensures Goes(w, Acquire(c), AcquireStep(w, c))
  {
    hide AcquireStep;
  }

  lemma NumberGoes(w: World, c: nat, now: int)
    requires Sane(w) && InPhase(w.calls, c, Slotted) && w.snd.next + 1 < UINT32_LIMIT
    ensures Goes(w, Number(c, now), NumberStep(w, c, now))
  {
    hide NumberStep;
  }

  lemma StoreGoes(w: World, c: nat, now: int)
    requires Sane(w) && InPhase(w.calls, c, Numbered)
    ensures Goes(w, Store(c, now), StoreStep(w, c, now))
  {
    hide StoreStep;
  }

  lemma TransmitGoes(w: World, c: nat)
    requires Sane(w) && InPhase(w.calls, c, Stored)
    ensures Goes(w, Transmit(c), TransmitStep(w, c))
  {
    hide TransmitStep;
  }

  lemma AbandonGoes(w: World, c: nat)
    requires Sane(w) && InPhase(w.calls, c, Stored)
    ensures Goes(w, Abandon(c), AbandonStep(w, c))
  {
    hide AbandonStep;
  }

  lemma TickGoes(w: World, now: int)
    requires Sane(w)
    ensures Goes(w, Tick(now), TickStep(w, now))
  {
    hide TickStep;
  }

  lemma ReceiveGoes(w: World, p: Packet)
    requires Sane(w) && p in w.net.data && w.rcv.inserting.None? && !w.rcv.closed
    ensures Goes(w, Receive(p), ReceiveStep(w, p))
  {
    hide ReceiveStep;
  }

  lemma InsertGoes(w: World)
    requires Sane(w) && w.rcv.inserting.Some?
    ensures Goes(w, InsertData, InsertStep(w))
  {
    hide InsertStep;
  }

  // ----- a number overtaken inside Send -----

  /** Two concurrent Sends: the one that took number 2 finishes while the one that took number 1 has not stored
      its packet yet. */
  function Overtaking(): seq<Step> {
    [Control(0, 0, MSG_STREAM_OPEN, []), Control(1, 0, MSG_STREAM_OPEN, []), Acquire(0), Acquire(1),
     Number(0, 0), Number(1, 0), Store(1, 0), Transmit(1)]
  }

  /** The run in four stages: both calls begun, admitted, numbered, and the second one done. */
  function Begun2(): World {
    var p := Packet(MSG_STREAM_OPEN, 0, 0, 0, []);
    var call := Call(Waiting, p, Snapshot(0, 0, 0));
    Initial(0).(calls := map[0 := call, 1 := call])
  }

  function Admitted2(): World {
    var w := Begun2();
    var call := w.calls[0].(phase := Slotted);
    w.(snd := w.snd.(window := Acquired(Acquired(w.snd.window))), calls := map[0 := call, 1 := call],
       hist := w.hist.(slots := 2))
  }

  function Numbered2(): World {
    var w := Admitted2();
    var p, q := Packet(MSG_STREAM_OPEN, 1, 0, 0, []), Packet(MSG_STREAM_OPEN, 2, 0, 0, []);
    var snap := SnapshotOf(w.snd.window.bwe, 0);
    w.(snd := w.snd.(next := 2), calls := map[0 := Call(Numbered, p, snap), 1 := Call(Numbered, q, snap)],
       hist := w.hist.(sent := map[1 := p, 2 := q]))
  }

  function Overtaken(): World {
    var w := Numbered2();
    var call := w.calls[1];
    w.(snd := w.snd.(packets := map[2 := NewlySent(call.packet, 0, call.snap)]),
       calls := map[0 := w.calls[0]], net := Network({call.packet}, {}))
  }

  lemma BothBegin()
    ensures Leads(Initial(0), Control(0, 0, MSG_STREAM_OPEN, []), Control(1, 0, MSG_STREAM_OPEN, []), Begun2())
  {
    hide Goes;
    var v := ControlStep(Initial(0), 0, 0, MSG_STREAM_OPEN, []);
    ControlGoes(Initial(0), 0, 0, MSG_STREAM_OPEN, []);
    ControlGoes(v, 1, 0, MSG_STREAM_OPEN, []);
    assert ControlStep(v, 1, 0, MSG_STREAM_OPEN, []) == Begun2();
  }

  lemma BothAdmitted()
    ensures Leads(Begun2(), Acquire(0), Acquire(1), Admitted2())
  {
    hide Goes;
    var v := AcquireStep(Begun2(), 0);
    AcquireGoes(Begun2(), 0);
    AcquireGoes(v, 1);
    assert AcquireStep(v, 1) == Admitted2();
  }

  lemma BothNumbered()
    ensures Leads(Admitted2(), Number(0, 0), Number(1, 0), Numbered2())
  {
    hide Goes;
    var v := NumberStep(Admitted2(), 0, 0);
    NumberGoes(Admitted2(), 0, 0);
    NumberGoes(v, 1, 0);
    assert NumberStep(v, 1, 0) == Numbered2();
  }

  lemma SecondFinishes()
    ensures Leads(Numbered2(), Store(1, 0), Transmit(1), Overtaken())
  {
    hide Goes;
    var v := StoreStep(Numbered2(), 1, 0);
    StoreGoes(Numbered2(), 1, 0);
    TransmitGoes(v, 1);
    assert TransmitStep(v, 1) == Overtaken();
  }

  lemma OvertakingSteps()
    ensures var s := Overtaking();
            && |s| == 8
            && s[0] == Control(0, 0, MSG_STREAM_OPEN, []) && s[1] == Control(1, 0, MSG_STREAM_OPEN, [])
            && s[2] == Acquire(0) && s[3] == Acquire(1) && s[4] == Number(0, 0) && s[5] == Number(1, 0)
            && s[6] == Store(1, 0) && s[7] == Transmit(1)
  {
  }

  lemma NoStepsLeft(w: World, s: seq<Step>)
    ensures IsRun(w, s[|s|..]) && After(w, s[|s|..]) == w
  {
    hide Enabled, Sane, Next;
  }

  lemma OvertakingRuns()
    ensures IsRun(Initial(0), Overtaking()) && After(Initial(0), Overtaking()) == Overtaken()
  {
    hide Leads, IsRun, After, Initial, Begun2, Admitted2, Numbered2, Overtaken, Overtaking;
    OvertakingSteps();
    var s, end := Overtaking(), Overtaken();
    NoStepsLeft(end, s);
    SecondFinishes();
    RunBack(Numbered2(), s, 6, end, end);
    BothNumbered();
    RunBack(Admitted2(), s, 4, Numbered2(), end);
    BothAdmitted();
    RunBack(Begun2(), s, 2, Admitted2(), end);
    BothBegin();
    RunBack(Initial(0), s, 0, Begun2(), end);
    assert s[0..] == s;
  }

  /** The condition is needed: in this reachable state the packet fastRetransmit picks is on the wire, and
      delivering it leaves the cumulative acknowledgement at zero. */
  lemma OvertakenPacketLeavesAGap()
    ensures IsRun(Initial(0), Overtaking())
    ensures var w := After(Initial(0), Overtaking());
            && IsLeast(2, Unacked(w.snd.packets)) && 2 in w.hist.sent && w.hist.sent[2] in w.net.data
            && ReceiveStep(w, w.hist.sent[2]).rcv.log.cumAck == 0
  {
    OvertakingRuns();
    hide IsRun, After;
  }

  // ----- a stream written again after a failed Write -----

  function Zeros(n: nat): (s: bytes)
    ensures |s| == n && forall i :: 0 <= i < n ==> s[i] == 0
  {
    if n == 0 then [] else Zeros(n - 1) + [0]
  }

  /** One byte more than fits a packet. */
  const FIRST := Zeros(MAX_PAYLOAD + 1)
  const HEAD := Zeros(MAX_PAYLOAD)
  const LATER := SECOND

  const P1 := Packet(MSG_STREAM_DATA, 1, 0, 0, HEAD)
  const P2 := Packet(MSG_STREAM_DATA, 2, 0, 1, [1])

  /** Write of 1341 zeros: the first chunk is stored, then the socket refuses it and Write returns its error. The
      timer sends the chunk all the same. A second Write of a single 1 follows, and both packets arrive. */
  function WritingAgain(): seq<Step> {
    FailedWrite() + SecondWrite()
  }

  function FailedWrite(): seq<Step> {
    [Open(0), Write(0, FIRST), Begin(0, 0), Acquire(0), Number(0, 0), Store(0, 0), Abandon(0), Tick(LATER)]
  }

  function SecondWrite(): seq<Step> {
    [Write(0, [1]), Begin(1, 0), Acquire(1), Number(1, 0), Store(1, 0), Transmit(1),
     Receive(P1), InsertData, Receive(P2), InsertData]
  }

  function Snap(): Snapshot {
    SnapshotOf(NewBandwidth(0), 0)
  }

  function Written1(): World {
    var w := Initial(0);
    w.(streams := map[0 := NEW_STREAM.(written := FIRST, todo := FIRST)],
       rcv := w.rcv.(bufs := map[0 := NewReorder(RECV_BUF_SIZE)]), hist := w.hist.(got := map[0 := {}]))
  }

  function Admitted1(): World {
    var w := Written1();
    w.(streams := map[0 := Stream(FIRST, [0], 0, [HEAD], [0], map[])],
       calls := map[0 := Call(Slotted, P1.(pktNum := 0), Snapshot(0, 0, 0))],
       snd := w.snd.(window := Acquired(w.snd.window)), hist := w.hist.(slots := 1))
  }

  function Stored1(): World {
    var w := Admitted1();
    w.(streams := map[0 := Stream(FIRST, [0], 0, [HEAD], [0], map[0 := 1])],
       calls := map[0 := Call(Stored, P1, Snap())],
       snd := w.snd.(next := 1, packets := map[1 := NewlySent(P1, 0, Snap())]),
       hist := w.hist.(sent := map[1 := P1]))
  }

  function Resent1(): World {
    var w := Stored1();
    w.(streams := map[0 := Stream(FIRST, [], 1, [HEAD], [0], map[0 := 1])], calls := map[],
       snd := w.snd.(packets := map[1 := SentPacket(P1, 0, LATER, 1, false, Snap())], rtt := BackedOff(w.snd.rtt)),
       net := Network({P1}, {}))
  }

  function Begun1(): World {
    var w := Resent1();
    w.(streams := map[0 := Stream(FIRST + [1], [], 1, [HEAD, [1]], [0, 1], map[0 := 1])],
       calls := map[1 := Call(Waiting, P2.(pktNum := 0), Snapshot(0, 0, 0))])
  }

  function Renumbered(): World {
    var w := Begun1();
    w.(streams := map[0 := Stream(FIRST + [1], [], 1, [HEAD, [1]], [0, 1], map[0 := 1, 1 := 2])],
       calls := map[1 := Call(Numbered, P2, Snap())],
       snd := w.snd.(next := 2, window := Acquired(w.snd.window)),
       hist := w.hist.(slots := 2, sent := map[1 := P1, 2 := P2]))
  }

  function Sent2(): World {
    var w := Renumbered();
    w.(calls := map[], net := Network({P1, P2}, {}),
       snd := w.snd.(packets := w.snd.packets[2 := NewlySent(P2, 0, Snap())]))
  }

  function Delivered1(): World {
    var w := Sent2();
    w.(rcv := w.rcv.(log := AckLog(1, {}, 1, false, 0), bufs := map[0 := Reorder(1, map[], RECV_BUF_SIZE, [HEAD])]),
       hist := w.hist.(seen := {1}, got := map[0 := {0}]))
  }

  function Delivered2(): World {
    var w := Delivered1();
    w.(rcv := w.rcv.(log := AckLog(2, {}, 2, false, 0), bufs := map[0 := Reorder(2, map[], RECV_BUF_SIZE,
                                                                                 [HEAD, [1]])]),
       hist := w.hist.(seen := {1, 2}, got := map[0 := {0, 1}]))
  }

  lemma OpenAndWrite()
    ensures Leads(Initial(0), Open(0), Write(0, FIRST), Written1())
  {
    hide Goes, Zeros;
    var v := OpenStep(Initial(0), 0);
    OpenGoes(Initial(0), 0);
    WriteGoes(v, 0, FIRST);
    assert NEW_STREAM.written + FIRST == FIRST;
    assert WriteStep(v, 0, FIRST) == Written1();
  }

  lemma CutFirst()
    ensures Leads(Written1(), Begin(0, 0), Acquire(0), Admitted1())
  {
    hide Goes, Zeros;
    assert Take(FIRST, MAX_PAYLOAD) == HEAD && FIRST[MAX_PAYLOAD..] == [0];
    assert NEW_STREAM.chunks + [HEAD] == [HEAD] && NEW_STREAM.skipped + [0] == [0];
    var v := BeginStep(Written1(), 0, 0);
    BeginGoes(Written1(), 0, 0);
    AcquireGoes(v, 0);
    assert AcquireStep(v, 0) == Admitted1();
  }

  lemma NumberAndStore()
    ensures Leads(Admitted1(), Number(0, 0), Store(0, 0), Stored1())
  {
    hide Goes, Zeros;
    var v := NumberStep(Admitted1(), 0, 0);
    NumberGoes(Admitted1(), 0, 0);
    StoreGoes(v, 0, 0);
    assert StoreStep(v, 0, 0) == Stored1();
  }

  /** The timer finds the stored packet expired and re-sends it. */
  lemma TimerResends(s: Sender)
    requires s.packets == map[1 := NewlySent(P1, 0, Snap())] && s.rtt == FRESH_RTT
    ensures TickResent(s, LATER) == [1]
    ensures Ticked(s, LATER) ==
            s.(packets := map[1 := SentPacket(P1, 0, LATER, 1, false, Snap())], rtt := BackedOff(s.rtt))
    ensures Datagrams(s.packets, [1]) == {P1}
  {
    assert ExpiredSet(s.packets, LATER, s.rtt.rto) == {1};
    ListingIsSorted([1], {1});
    assert TickBatch(s, LATER) == [1] && [1][1..] == [];
  }

  lemma FailAndTick()
    ensures Leads(Stored1(), Abandon(0), Tick(LATER), Resent1())
  {
    hide Goes, Zeros, Ticked, TickResent, Datagrams;
    var v := AbandonStep(Stored1(), 0);
    AbandonGoes(Stored1(), 0);
    TimerResends(v.snd);
    TickGoes(v, LATER);
    assert TickStep(v, LATER) == Resent1();
  }

  lemma WriteAgain()
    ensures Leads(Resent1(), Write(0, [1]), Begin(1, 0), Begun1())
  {
    hide Goes, Zeros;
    assert Take([1], MAX_PAYLOAD) == [1] && [1][1..] == [];
    var v := WriteStep(Resent1(), 0, [1]);
    WriteGoes(Resent1(), 0, [1]);
    BeginGoes(v, 1, 0);
    assert [HEAD] + [[1]] == [HEAD, [1]] && [0] + [1] == [0, 1];
    assert BeginStep(v, 1, 0) == Begun1();
  }

  lemma AdmitAndNumber()
    ensures Leads(Begun1(), Acquire(1), Number(1, 0), Renumbered())
  {
    hide Goes, Zeros;
    var v := AcquireStep(Begun1(), 1);
    AcquireGoes(Begun1(), 1);
    NumberGoes(v, 1, 0);
    assert NumberStep(v, 1, 0) == Renumbered();
  }

  lemma StoreAndTransmit()
    ensures Leads(Renumbered(), Store(1, 0), Transmit(1), Sent2())
  {
    hide Goes, Zeros;
    var v := StoreStep(Renumbered(), 1, 0);
    StoreGoes(Renumbered(), 1, 0);
    TransmitGoes(v, 1);
    assert TransmitStep(v, 1) == Sent2();
  }

  lemma AdvanceByOne(cum: nat)
    ensures Advance(cum, {cum + 1}) == (cum + 1, {})
  {
    var none: set<nat> := {};
    assert {cum + 1} - {cum + 1} == none && Advance(cum + 1, none) == (cum + 1, none);
  }

  lemma FirstArrives(log: AckLog, r: Reorder)
    requires log == FRESH_LOG && r == NewReorder(RECV_BUF_SIZE)
    ensures Record(log, 1) == AckLog(1, {}, 1, false, 0)
    ensures Inserted(r, 0, HEAD) == Reorder(1, map[], RECV_BUF_SIZE, [HEAD])
  {
    hide Zeros;
    AdvanceByOne(0);
    assert log.received + {1} == {1} && r.delivered + [HEAD] == [HEAD];
  }

  lemma SecondArrives(log: AckLog, r: Reorder)
    requires log == AckLog(1, {}, 1, false, 0) && r == Reorder(1, map[], RECV_BUF_SIZE, [HEAD])
    ensures Record(log, 2) == AckLog(2, {}, 2, false, 0)
    ensures Inserted(r, 1, [1]) == Reorder(2, map[], RECV_BUF_SIZE, [HEAD, [1]])
  {
    hide Zeros;
    AdvanceByOne(1);
    assert log.received + {2} == {2} && r.delivered + [[1]] == [HEAD, [1]];
  }

  lemma DeliverFirst()
    ensures Leads(Sent2(), Receive(P1), InsertData, Delivered1())
  {
    hide Goes, Zeros, Record, Inserted;
    FirstArrives(Sent2().rcv.log, Sent2().rcv.bufs[0]);
    var v := ReceiveStep(Sent2(), P1);
    ReceiveGoes(Sent2(), P1);
    InsertGoes(v);
    assert Sent2().hist.seen + {1} == {1} && Sent2().hist.got[0] + {0} == {0};
    assert InsertStep(v) == Delivered1();
  }

  lemma DeliverSecond()
    ensures Leads(Delivered1(), Receive(P2), InsertData, Delivered2())
  {
    hide Goes, Zeros, Record, Inserted;
    SecondArrives(Delivered1().rcv.log, Delivered1().rcv.bufs[0]);
    var v := ReceiveStep(Delivered1(), P2);
    ReceiveGoes(Delivered1(), P2);
    InsertGoes(v);
    assert Delivered1().hist.seen + {2} == {1, 2} && Delivered1().hist.got[0] + {1} == {0, 1};
    assert InsertStep(v) == Delivered2();
  }

  lemma FailedWriteSteps()
    ensures var s := FailedWrite();
            && |s| == 8
            && s[0] == Open(0) && s[1] == Write(0, FIRST) && s[2] == Begin(0, 0) && s[3] == Acquire(0)
            && s[4] == Number(0, 0) && s[5] == Store(0, 0) && s[6] == Abandon(0) && s[7] == Tick(LATER)
  {
    hide Zeros;
  }

  lemma SecondWriteSteps()
    ensures var s := SecondWrite();
            && |s| == 10
            && s[0] == Write(0, [1]) && s[1] == Begin(1, 0) && s[2] == Acquire(1) && s[3] == Number(1, 0)
            && s[4] == Store(1, 0) && s[5] == Transmit(1) && s[6] == Receive(P1) && s[7] == InsertData
            && s[8] == Receive(P2) && s[9] == InsertData
  {
    hide Zeros;
  }

  lemma SecondWriteRuns()
    ensures IsRun(Resent1(), SecondWrite()) && After(Resent1(), SecondWrite()) == Delivered2()
  {
    hide Leads, Initial, Resent1, Begun1, Renumbered, Sent2, Delivered1, Delivered2, Zeros, IsRun, After, SecondWrite;
    SecondWriteSteps();
    var s, end := SecondWrite(), Delivered2();
    NoStepsLeft(end, s);
    DeliverSecond();
    RunBack(Delivered1(), s, 8, end, end);
    DeliverFirst();
    RunBack(Sent2(), s, 6, Delivered1(), end);
    StoreAndTransmit();
    RunBack(Renumbered(), s, 4, Sent2(), end);
    AdmitAndNumber();
    RunBack(Begun1(), s, 2, Renumbered(), end);
    WriteAgain();
    RunBack(Resent1(), s, 0, Begun1(), end);
    assert s[0..] == s;
  }

  lemma WritingAgainRuns()
    ensures IsRun(Initial(0), WritingAgain()) && After(Initial(0), WritingAgain()) == Delivered2()
  {
    hide Leads, Initial, Written1, Admitted1, Stored1, Resent1, Delivered2, Zeros, IsRun, After;
    hide FailedWrite, SecondWrite;
    FailedWriteSteps();
    SecondWriteRuns();
    var s, end := WritingAgain(), Delivered2();
    assert s[8..] == SecondWrite();
    FailAndTick();
    RunBack(Stored1(), s, 6, Resent1(), end);
    NumberAndStore();
    RunBack(Admitted1(), s, 4, Stored1(), end);
    CutFirst();
    RunBack(Written1(), s, 2, Admitted1(), end);
    OpenAndWrite();
    RunBack(Initial(0), s, 0, Written1(), end);
    assert s[0..] == s;
  }

  /** The condition on bytes given up is needed: here the delivered bytes are 1340 zeros and a 1, the bytes passed to
      Write 1341 zeros and a 1. */
  lemma WritingAgainLeavesBytesOut()
    ensures IsRun(Initial(0), WritingAgain())
    ensures var w := After(Initial(0), WritingAgain());
            && 0 in w.rcv.bufs && 0 in w.streams
            && w.streams[0].written == FIRST + [1] && w.rcv.bufs[0].delivered == [HEAD, [1]]
            && !(Flat(w.rcv.bufs[0].delivered) <= w.streams[0].written)
  {
    WritingAgainRuns();
    hide IsRun, After;
    assert [HEAD, [1]][..1] == [HEAD] && [HEAD][..0] == [];
    assert Flat([HEAD]) == HEAD;
    assert Flat([HEAD, [1]]) == HEAD + [1];
    assert (HEAD + [1])[MAX_PAYLOAD] == 1 && (FIRST + [1])[MAX_PAYLOAD] == 0;
  }
}
