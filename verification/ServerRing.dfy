/** The ring of exit servers and the first connect (daemon/internal/transport/servers.go). Errors are
    classified as the program's predicates do: link down, key rejected, anything else. */
module ServerRings {
  import opened Ordering

  /** A server address, already trimmed. */
  datatype Address = Address(text: string) {
    predicate IsBlank() {
      text == ""
    }
  }

  const NOWHERE := Address("")

  datatype DialError = Unreachable | InvalidKey | Other

  datatype Ring = Ring(addrs: seq<Address>, cur: nat, rejected: set<Address>) {
    ghost predicate Valid() {
      && 0 <= cur < |addrs|
      && forall i, j :: 0 <= i < j < |addrs| ==> addrs[i] != addrs[j]
    }

    function Current(): Address
      requires cur < |addrs|
    {
      addrs[cur]
    }

    function Advanced(): Ring
      requires cur < |addrs|
    {
      if |addrs| < 2 then this else this.(cur := Wrap(cur, 1, |addrs|))
    }

    /** An unreachable link leaves the ring alone, a rejection is remembered, every other failure moves on. */
    function Noted(addr: Address, err: DialError): Ring
      requires cur < |addrs|
    {
      if err.Unreachable? then this
      else if err.InvalidKey? then this.(rejected := rejected + {addr}).Advanced()
      else Advanced()
    }

    function Succeeded(): Ring {
      this.(rejected := {})
    }

    predicate AllRejected() {
      forall i :: 0 <= i < |addrs| ==> addrs[i] in rejected
    }
  }

  /** (c + i) % n for one turn of the ring. */
  function Wrap(c: nat, i: nat, n: nat): (k: nat)
    requires c < n && i <= n
    ensures k < n
  {
    if c + i < n then c + i else c + i - n
  }

  lemma WrapIsMod(c: nat, i: nat, n: nat)
    requires c < n && i <= n
    ensures Wrap(c, i, n) == (c + i) % n
  {
    var x := c + i;
    var q := x / n;
    assert x == q * n + x % n;
    MulOrder(2, q, n);
    MulOrder(q, 0, n);
  }

  lemma MulOrder(a: nat, b: nat, n: nat)
    ensures a <= b ==> a * n <= b * n
  {
  }

  // ----- what `rejected` means over a whole history -----

  datatype Event = Failed(addr: Address, err: DialError) | Success

  function Run(ring: Ring, events: seq<Event>): Ring
    requires ring.cur < |ring.addrs|
    ensures Run(ring, events).addrs == ring.addrs && Run(ring, events).cur < |ring.addrs|
  {
    if events == [] then ring else
    var before := Run(ring, events[..|events| - 1]);
    match events[|events| - 1]
    case Failed(addr, err) => before.Noted(addr, err)
    case Success => before.Succeeded()
  }

  /** Event i is a rejection by addr with no success after it. */
  ghost predicate RejectsSince(events: seq<Event>, i: nat, addr: Address) {
    && i < |events| && events[i] == Failed(addr, InvalidKey)
    && forall j :: i < j < |events| ==> !events[j].Success?
  }

  /** A server counts as rejecting exactly when it answered "invalid key" since the last success. */
  lemma {:induction false} RejectedSinceLastSuccess(ring: Ring, events: seq<Event>, addr: Address)
    requires ring.cur < |ring.addrs| && ring.rejected == {}
    ensures addr in Run(ring, events).rejected <==> exists i: nat :: RejectsSince(events, i, addr)
  {
    if events != [] {
      var init, last := events[..|events| - 1], events[|events| - 1];
      RejectedSinceLastSuccess(ring, init, addr);
      if last.Success? {
        assert forall i: nat :: !RejectsSince(events, i, addr);
      } else {
        if last == Failed(addr, InvalidKey) {
          assert RejectsSince(events, |events| - 1, addr);
        } else {
          forall i: nat ensures RejectsSince(events, i, addr) <==> RejectsSince(init, i, addr) {
            assert i == |events| - 1 ==> events[i] == last;
            assert i < |init| ==> events[i] == init[i];
            assert !events[|events| - 1].Success?;
          }
        }
      }
    }
  }

  // ----- building the ring -----

  /** The candidates without blanks and repetitions. */
  function Usable(candidates: seq<Address>): seq<Address> {
    if candidates == [] then [] else
    var before, a := Usable(candidates[..|candidates| - 1]), candidates[|candidates| - 1];
    if a.IsBlank() || a in before then before else before + [a]
  }

  /** Each non-blank candidate comes exactly once, and in the order of first occurrence: what the first n
      candidates contribute comes before anything that later ones add. */
  lemma {:induction false} UsableKeepsFirstOccurrences(candidates: seq<Address>, n: nat)
    requires n <= |candidates|
    ensures var u := Usable(candidates);
            && (forall i, j :: 0 <= i < j < |u| ==> u[i] != u[j])
            && (forall a :: a in u <==> a in candidates && !a.IsBlank())
            && Usable(candidates[..n]) <= u
  {
    if candidates != [] {
      var init, a := candidates[..|candidates| - 1], candidates[|candidates| - 1];
      assert candidates == init + [a];
      if n < |candidates| {
        UsableKeepsFirstOccurrences(init, n);
        assert init[..n] == candidates[..n];
      } else {
        UsableKeepsFirstOccurrences(init, n - 1);
        assert candidates[..n] == candidates;
      }
    }
  }

  /** Builds a ring, or none when no candidate is usable. */
  method NewServerRing(candidates: seq<Address>) returns (ring: ServerRing?)
    ensures ring == null <==> forall i :: 0 <= i < |candidates| ==> candidates[i].IsBlank()
    ensures ring != null ==> fresh(ring) && ring.Valid() && ring.View() == Ring(Usable(candidates), 0, {})
  {
    var kept: seq<Address> := [];
    for i := 0 to |candidates|
      invariant kept == Usable(candidates[..i])
    {
      var a := candidates[i];
      assert candidates[..i + 1][..i] == candidates[..i];
      if a.IsBlank() || a in kept {
        continue;
      }
      kept := kept + [a];
    }
    assert candidates[..|candidates|] == candidates;
    UsableKeepsFirstOccurrences(candidates, 0);
    if |kept| == 0 {
      assert forall i :: 0 <= i < |candidates| ==> candidates[i] in candidates;
      return null;
    }
    assert kept[0] in kept;
    ring := new ServerRing(kept);
  }

  // ----- the first connect -----

  /** How the i-th dial of a connect ends. */
  datatype Dial = Accepted | Refused(err: DialError)

  datatype Connect = Connected(addr: Address) | NoServer | NotConnected(addr: Address, err: DialError)

  /** The addresses in dial order, current first. */
  function DialOrder(r: Ring): (s: seq<Address>)
    requires r.cur < |r.addrs|
    ensures |s| == |r.addrs|
    ensures forall i :: 0 <= i < |s| ==> s[i] == r.addrs[Wrap(r.cur, i, |s|)]
  {
    seq(|r.addrs|, i requires 0 <= i < |r.addrs| => r.addrs[Wrap(r.cur, i, |r.addrs|)])
  }

  /** Within one turn of the ring no server comes twice. */
  lemma DialOrderDistinct(r: Ring, i: nat, j: nat)
    requires r.Valid() && i < j < |r.addrs|
    ensures DialOrder(r)[i] != DialOrder(r)[j]
  {
    var a, b := Wrap(r.cur, i, |r.addrs|), Wrap(r.cur, j, |r.addrs|);
    assert a < b || b < a;
  }

  /** Every server of the ring comes in one turn. */
  lemma DialOrderComplete(r: Ring, i: nat)
    requires r.Valid() && i < |r.addrs|
    ensures r.addrs[i] in DialOrder(r)
  {
    var j := if i >= r.cur then i - r.cur else i - r.cur + |r.addrs|;
    assert DialOrder(r)[j] == r.addrs[i];
  }

  /** A failed dial that blames the server; any other dial ends the round. */
  predicate Blames(d: Dial) {
    d.Refused? && !d.err.Unreachable?
  }

  /** The index of the dial that ends a round of n, or n if every server was dialled in vain. */
  function FirstStop(dials: seq<Dial>, n: nat): (k: nat)
    requires n <= |dials|
    ensures k <= n && (k < n ==> !Blames(dials[k])) && forall j :: 0 <= j < k ==> Blames(dials[j])
    decreases n
  {
    if n == 0 then 0 else
    var k := FirstStop(dials, n - 1);
    if k < n - 1 || !Blames(dials[n - 1]) then k else n
  }

  /** The ring after the first i dials, all of them failures that blame the server. */
  function Walk(r: Ring, dials: seq<Dial>, i: nat): (w: Ring)
    requires r.Valid() && i <= |dials| && forall j :: 0 <= j < i ==> Blames(dials[j])
    ensures w.cur < |w.addrs| == |r.addrs| && w.addrs == r.addrs
  {
    if i == 0 then r else
    assert Blames(dials[i - 1]);
    var before := Walk(r, dials, i - 1);
    before.Noted(before.Current(), dials[i - 1].err)
  }

  function AfterRound(r: Ring, dials: seq<Dial>): Ring
    requires r.Valid() && |r.addrs| <= |dials|
  {
    var k := FirstStop(dials, |r.addrs|);
    var w := Walk(r, dials, k);
    if k < |r.addrs| && dials[k].Accepted? then w.Succeeded() else w
  }

  ghost function Answer(r: Ring, dials: seq<Dial>): Connect
    requires r.Valid() && |r.addrs| <= |dials|
  {
    var n := |r.addrs|;
    var k := FirstStop(dials, n);
    if k < n then
      if dials[k].Accepted? then Connected(DialOrder(r)[k]) else NotConnected(DialOrder(r)[k], Unreachable)
    else if exists j :: 0 <= j < n && dials[j] == Refused(Other) then
      NotConnected(if n == 1 then r.Current() else NOWHERE, Other)
    else NotConnected(NOWHERE, InvalidKey)
  }

  /** Each failed dial turns the ring by one place, so dial i goes to the i-th server of the round. */
  lemma {:induction false} WalkTurns(r: Ring, dials: seq<Dial>, i: nat)
    requires r.Valid() && i <= |dials| && i <= |r.addrs| && forall j :: 0 <= j < i ==> Blames(dials[j])
    ensures Walk(r, dials, i).cur == Wrap(r.cur, i, |r.addrs|)
    ensures i < |r.addrs| ==> Walk(r, dials, i).Current() == DialOrder(r)[i]
  {
    if i > 0 {
      WalkTurns(r, dials, i - 1);
    }
  }

  lemma WalkStarts(r: Ring, dials: seq<Dial>)
    requires r.Valid() && |r.addrs| <= |dials|
    ensures Walk(r, dials, 0) == r && DialOrder(r)[..0] == []
  {
  }

  lemma WalkOn(r: Ring, dials: seq<Dial>, i: nat)
    requires r.Valid() && i < |r.addrs| <= |dials| && i <= FirstStop(dials, |r.addrs|)
    ensures Blames(dials[i]) ==>
              && i + 1 <= FirstStop(dials, |r.addrs|)
              && Walk(r, dials, i + 1) == Walk(r, dials, i).Noted(Walk(r, dials, i).Current(), dials[i].err)
    ensures !Blames(dials[i]) ==> FirstStop(dials, |r.addrs|) == i
  {
  }

  ghost predicate RejectedAt(r: Ring, dials: seq<Dial>, j: nat, a: Address)
    requires r.cur < |r.addrs| && j < |dials| && j < |r.addrs|
  {
    dials[j] == Refused(InvalidKey) && DialOrder(r)[j] == a
  }

  lemma WalkRejectsNext(r: Ring, dials: seq<Dial>, i: nat, a: Address)
    requires r.Valid() && 0 < i <= |dials| && i <= |r.addrs| && forall j :: 0 <= j < i ==> Blames(dials[j])
    ensures a in Walk(r, dials, i).rejected <==> a in Walk(r, dials, i - 1).rejected || RejectedAt(r, dials, i - 1, a)
  {
    hide DialOrder, Wrap;
    WalkTurns(r, dials, i - 1);
  }

  /** The walk adds to `rejected` the servers that answered "invalid key" in it. */
  lemma {:induction false} WalkRejects(r: Ring, dials: seq<Dial>, i: nat, a: Address)
    requires r.Valid() && i <= |dials| && i <= |r.addrs| && forall j :: 0 <= j < i ==> Blames(dials[j])
    ensures a in Walk(r, dials, i).rejected <==> a in r.rejected || exists j :: 0 <= j < i && RejectedAt(r, dials, j, a)
  {
    if i > 0 {
      WalkRejects(r, dials, i - 1, a);
      WalkRejectsNext(r, dials, i, a);
      hide Walk, RejectedAt, DialOrder, Wrap;
    }
  }

  /** ConnectAny gives up with "invalid key" exactly when every server answered that, and then every server of
      the ring is marked as rejecting; a server that accepts is left current with no rejection on record; an
      unreachable link keeps the ring on the server that showed it; any other failure turns the ring back to
      where it started. */
  lemma ConnectGivesUpOnlyForCause(r: Ring, dials: seq<Dial>)
    requires r.Valid() && |r.addrs| <= |dials|
    ensures var n, a, after := |r.addrs|, Answer(r, dials), AfterRound(r, dials);
            && (a == NotConnected(NOWHERE, InvalidKey) <==> forall j :: 0 <= j < n ==> dials[j] == Refused(InvalidKey))
            && (a == NotConnected(NOWHERE, InvalidKey) ==> after.AllRejected())
            && (a.Connected? ==> after.Current() == a.addr && after.rejected == {})
            && (a.NotConnected? && a.err.Unreachable? ==> after.Current() == a.addr)
            && (a.NotConnected? && !a.err.Unreachable? ==> after.cur == r.cur)
  {
    var n := |r.addrs|;
    var k := FirstStop(dials, n);
    WalkTurns(r, dials, k);
    if k == n && forall j :: 0 <= j < n ==> dials[j] == Refused(InvalidKey) {
      var after := Walk(r, dials, n);
      forall j | 0 <= j < n ensures DialOrder(r)[j] in after.rejected {
        WalkRejects(r, dials, n, DialOrder(r)[j]);
        assert RejectedAt(r, dials, j, DialOrder(r)[j]);
      }
      EveryoneRejected(r, after.rejected, DialOrder(r));
    }
  }

  /** The first k dials all failed in a way that blames the server. */
  ghost predicate OnlyBlameBefore(dials: seq<Dial>, k: nat)
    requires k <= |dials|
  {
    forall j :: 0 <= j < k ==> dials[j] == Refused(InvalidKey) || dials[j] == Refused(Other)
  }

  /** ConnectAny ends with the first dial that is accepted or finds the link down, on the server that dial went to;
      if neither happens within one turn it fails with "invalid key" if every server said so, and otherwise with the
      other error. */
  lemma ConnectEndsWhere(r: Ring, dials: seq<Dial>, k: nat)
    requires r.Valid() && |r.addrs| <= |dials| && k <= |r.addrs| && OnlyBlameBefore(dials, k)
    ensures k < |r.addrs| && dials[k].Accepted? ==>
              Answer(r, dials) == Connected(DialOrder(r)[k]) && FirstStop(dials, |r.addrs|) == k
    ensures k < |r.addrs| && dials[k] == Refused(Unreachable) ==>
              Answer(r, dials) == NotConnected(DialOrder(r)[k], Unreachable) && FirstStop(dials, |r.addrs|) == k
    ensures k == |r.addrs| ==>
              && FirstStop(dials, |r.addrs|) == k && Answer(r, dials).NotConnected?
              && Answer(r, dials).err ==
                 if forall j :: 0 <= j < k ==> dials[j] == Refused(InvalidKey) then InvalidKey else Other
  {
    if k == |r.addrs| || !Blames(dials[k]) {
      StopIs(dials, |r.addrs|, k);
    }
  }

  lemma {:induction false} StopIs(dials: seq<Dial>, n: nat, k: nat)
    requires k <= n <= |dials| && forall j :: 0 <= j < k ==> Blames(dials[j])
    requires k < n ==> !Blames(dials[k])
    ensures FirstStop(dials, n) == k
    decreases n
  {
    if n > 0 {
      StopIs(dials, n - 1, if k < n then k else n - 1);
    }
  }

  class ServerRing {
    var addrs: seq<Address>
    var cur: nat
    var rejected: set<Address>

    ghost function View(): Ring
      reads this
    {
      Ring(addrs, cur, rejected)
    }

    ghost predicate Valid()
      reads this
    {
      View().Valid()
    }

    constructor (addrs: seq<Address>)
      requires Ring(addrs, 0, {}).Valid()
      ensures Valid() && View() == Ring(addrs, 0, {})
    {
      this.addrs, cur, rejected := addrs, 0, {};
    }

    method All() returns (out: seq<Address>)
      requires Valid()
      ensures out == DialOrder(View())
    {
      out := [];
      for i := 0 to |addrs|
        invariant out == DialOrder(View())[..i]
      {
        WrapIsMod(cur, i, |addrs|);
        out := out + [addrs[(cur + i) % |addrs|]];
      }
      assert DialOrder(View())[..|addrs|] == DialOrder(View());
    }

    method Advance() returns (next: Address, moved: bool)
      requires Valid()
      modifies this
      ensures Valid() && View() == old(View()).Advanced() && next == View().Current()
      ensures moved <==> |addrs| >= 2
    {
      if |addrs| < 2 {
        return addrs[cur], false;
      }
      WrapIsMod(cur, 1, |addrs|);
      cur := (cur + 1) % |addrs|;
      return addrs[cur], true;
    }

    /** Makes addr current if the ring knows it. */
    method Prefer(addr: Address) returns (known: bool)
      requires Valid()
      modifies this
      ensures Valid() && known == (addr in addrs) && addrs == old(addrs) && rejected == old(rejected)
      ensures if known then View().Current() == addr else View() == old(View())
    {
      for i := 0 to |addrs|
        invariant View() == old(View()) && addr !in addrs[..i]
      {
        if addrs[i] == addr {
          cur := i;
          return true;
        }
      }
      assert addrs[..|addrs|] == addrs;
      known := false;
    }

    method NoteFailure(addr: Address, err: DialError) returns (next: Address, moved: bool)
      requires Valid()
      modifies this
      ensures Valid() && View() == old(View()).Noted(addr, err) && next == View().Current()
      ensures moved <==> !err.Unreachable? && |addrs| >= 2
    {
      if err.Unreachable? {
        return addrs[cur], false;
      }
      if err.InvalidKey? {
        rejected := rejected + {addr};
      }
      next, moved := Advance();
    }

    method NoteSuccess()
      requires Valid()
      modifies this
      ensures Valid() && View() == old(View()).Succeeded()
    {
      rejected := {};
    }

    method AllRejected() returns (r: bool)
      requires Valid()
      ensures r == View().AllRejected()
    {
      for i := 0 to |addrs|
        invariant forall j :: 0 <= j < i ==> addrs[j] in rejected
      {
        if addrs[i] !in rejected {
          return false;
        }
      }
      r := true;
    }

    /** Dials the servers in ring order until one accepts or the link turns out to be down. `dials[i]` is how the
        i-th dial ends. */
    method DialRound(dials: seq<Dial>) returns (r: Connect, dialled: seq<Address>)
      requires Valid() && |dials| >= |addrs|
      modifies this
      ensures Valid()
      ensures dialled == Take(DialOrder(old(View())), FirstStop(dials, |old(addrs)|) + 1)
      ensures r == Answer(old(View()), dials) && View() == AfterRound(old(View()), dials)
    {
      hide Walk, DialOrder, FirstStop, Wrap;
      ghost var before := View();
      var n := |addrs|;
      WalkStarts(before, dials);
      var lastErr := false;
      dialled := [];
      for i := 0 to n
        invariant Valid() && n == |before.addrs| && addrs == before.addrs
        invariant i <= FirstStop(dials, n) && View() == Walk(before, dials, i)
        invariant dialled == DialOrder(before)[..i]
        invariant lastErr <==> exists j :: 0 <= j < i && dials[j] == Refused(Other)
      {
        WalkTurns(before, dials, i);
        WalkOn(before, dials, i);
        var addr := addrs[cur];
        dialled := dialled + [addr];
        assert dialled == DialOrder(before)[..i + 1];
        if dials[i].Accepted? {
          NoteSuccess();
          return Connected(addr), dialled;
        }
        var err := dials[i].err;
        if err.Unreachable? {
          return NotConnected(addr, err), dialled;
        }
        if !err.InvalidKey? {
          lastErr := true;
        }
        var next, moved := NoteFailure(addr, err);
      }
      WalkTurns(before, dials, n);
      assert DialOrder(before)[..n] == DialOrder(before);
      if lastErr {
        return NotConnected(if n == 1 then addrs[cur] else NOWHERE, Other), dialled;
      }
      return NotConnected(NOWHERE, InvalidKey), dialled;
    }
  }

  lemma EveryoneRejected(r: Ring, rejected: set<Address>, order: seq<Address>)
    requires r.Valid() && order == DialOrder(r)
    requires forall j :: 0 <= j < |r.addrs| ==> order[j] in rejected
    ensures forall i :: 0 <= i < |r.addrs| ==> r.addrs[i] in rejected
  {
    forall i | 0 <= i < |r.addrs| ensures r.addrs[i] in rejected {
      DialOrderComplete(r, i);
    }
  }

  /** The program's entry point: without a ring there is no server to dial. */
  method ConnectAny(ring: ServerRing?, dials: seq<Dial>) returns (r: Connect, dialled: seq<Address>)
    requires ring != null ==> ring.Valid() && |dials| >= |ring.addrs|
    modifies ring
    ensures ring == null <==> r.NoServer?
    ensures ring == null ==> dialled == []
    ensures ring != null ==>
              && ring.Valid() && dialled == Take(DialOrder(old(ring.View())), FirstStop(dials, |old(ring.addrs)|) + 1)
              && r == Answer(old(ring.View()), dials) && ring.View() == AfterRound(old(ring.View()), dials)
  {
    if ring == null {
      return NoServer, [];
    }
    r, dialled := ring.DialRound(dials);
  }
}
