/** Finite sets of numbers listed in ascending order, and a few facts about their sizes. */
module Ordering {

  ghost predicate Ascending(s: seq<nat>) {
    forall i, j :: 0 <= i < j < |s| ==> s[i] < s[j]
  }

  function Elements(s: seq<nat>): set<nat> {
    set x | x in s
  }

  /** `s` lists the set `S` in ascending order. */
  ghost predicate Lists(s: seq<nat>, S: set<nat>) {
    Ascending(s) && Elements(s) == S
  }

  ghost predicate IsLeast(x: nat, S: set<nat>) {
    x in S && forall y :: y in S ==> x <= y
  }

  lemma {:induction false} LeastExists(S: set<nat>)
    requires S != {}
    ensures exists x :: IsLeast(x, S)
    decreases S
  {
    var x :| x in S;
    if S == {x} {
      assert IsLeast(x, S);
    } else {
      var rest := S - {x};
      LeastExists(rest);
      var y :| IsLeast(y, rest);
      assert forall z :: z in S ==> z == x || z in rest;
      assert IsLeast(if x < y then x else y, S);
    }
  }

  ghost function Least(S: set<nat>): (x: nat)
    requires S != {}
    ensures IsLeast(x, S)
  {
    LeastExists(S);
    var x :| IsLeast(x, S);
    x
  }

  ghost function Sorted(S: set<nat>): (s: seq<nat>)
    ensures Lists(s, S)
    decreases S
  {
    if S == {} then [] else
    var x := Least(S);
    var rest := Sorted(S - {x});
    LeastFirst(x, rest, S);
    [x] + rest
  }

  lemma LeastFirst(x: nat, rest: seq<nat>, S: set<nat>)
    requires IsLeast(x, S) && Lists(rest, S - {x})
    ensures Lists([x] + rest, S)
  {
    var s := [x] + rest;
    forall i | 0 < i < |s| ensures x < s[i] {
      assert s[i] == rest[i - 1] && rest[i - 1] in Elements(rest);
    }
    assert forall i, j :: 0 < i < j < |s| ==> s[i] == rest[i - 1] && s[j] == rest[j - 1];
    assert Elements(s) == {x} + Elements(rest);
  }

  lemma EmptyListing(s: seq<nat>)
    ensures s == [] <==> Elements(s) == {}
  {
    if s != [] {
      assert s[0] in Elements(s);
    }
  }

  lemma InElements(s: seq<nat>, x: nat)
    ensures x in s <==> x in Elements(s)
  {
  }

  /** A set has only one ascending listing. */
  lemma {:induction false} ListingIsUnique(s: seq<nat>, t: seq<nat>)
    requires Ascending(s) && Ascending(t) && Elements(s) == Elements(t)
    ensures s == t
    decreases |s|
  {
    EmptyListing(s);
    EmptyListing(t);
    if s != [] {
      assert s[0] in Elements(s) && s[0] in t;
      assert t[0] in Elements(t) && t[0] in s;
      assert s[0] == t[0];
      assert Elements(s[1..]) == Elements(s) - {s[0]} by {
        assert s == [s[0]] + s[1..];
      }
      assert Elements(t[1..]) == Elements(t) - {t[0]} by {
        assert t == [t[0]] + t[1..];
      }
      ListingIsUnique(s[1..], t[1..]);
    }
  }

  lemma ListingIsSorted(s: seq<nat>, S: set<nat>)
    requires Lists(s, S)
    ensures s == Sorted(S)
  {
    ListingIsUnique(s, Sorted(S));
  }

  function Take<T>(s: seq<T>, n: nat): (r: seq<T>)
    ensures |r| <= n && r <= s
    ensures |r| == n || r == s
  {
    if |s| > n then s[..n] else s
  }

  // ----- sizes -----

  lemma {:induction false} SubsetSize<T>(a: set<T>, b: set<T>)
    requires a <= b
    ensures |a| <= |b|
    decreases a
  {
    if a != {} {
      var x :| x in a;
      SubsetSize(a - {x}, b - {x});
    }
  }

  lemma {:induction false} ListingSize(s: seq<nat>)
    requires Ascending(s)
    ensures |Elements(s)| == |s|
    decreases |s|
  {
    if s != [] {
      var init, last := s[..|s| - 1], s[|s| - 1];
      ListingSize(init);
      assert s == init + [last];
      assert Elements(s) == Elements(init) + {last} && last !in Elements(init);
    }
  }

  /** A member with fewer than n smaller members is among the first n of the listing. */
  lemma AmongTheFirst(S: set<nat>, k: nat, n: nat)
    requires k in S && |set x | x in S && x < k| < n
    ensures k in Take(Sorted(S), n)
  {
    var s, below := Sorted(S), set x | x in S && x < k;
    InElements(s, k);
    var i :| 0 <= i < |s| && s[i] == k;
    assert Elements(s[..i]) <= below by {
      forall x | x in s[..i] ensures x in below {
        InElements(s, x);
      }
    }
    ListingSize(s[..i]);
    SubsetSize(Elements(s[..i]), below);
    assert Take(s, n)[i] == k;
  }

  function Smaller(S: set<nat>, k: nat): set<nat> {
    set x | x in S && x < k
  }

  /** The members below the i-th of a listing come before it. */
  lemma SmallerComeBefore(s: seq<nat>, S: set<nat>, i: nat)
    requires Lists(s, S) && i < |s|
    ensures |Smaller(S, s[i])| <= i
  {
    forall x | x in Smaller(S, s[i]) ensures x in Elements(s[..i]) {
      InElements(s, x);
      var j :| 0 <= j < |s| && s[j] == x;
      assert s[..i][j] == x;
    }
    ListingSize(s[..i]);
    SubsetSize(Smaller(S, s[i]), Elements(s[..i]));
  }

  /** The first n of a listing are the members with fewer than n smaller ones. */
  lemma TakenExactly(S: set<nat>, k: nat, n: nat)
    ensures Ascending(Take(Sorted(S), n))
    ensures k in Take(Sorted(S), n) <==> k in S && |Smaller(S, k)| < n
  {
    hide Sorted;
    if k in S && |Smaller(S, k)| < n {
      assert Smaller(S, k) == set x | x in S && x < k;
      AmongTheFirst(S, k, n);
    }
    if k in Take(Sorted(S), n) {
      var i :| 0 <= i < |Take(Sorted(S), n)| && Take(Sorted(S), n)[i] == k;
      InElements(Sorted(S), k);
      SmallerComeBefore(Sorted(S), S, i);
    }
  }

  function Interval(lo: nat, hi: nat): (s: set<nat>)
    ensures forall k :: k in s <==> lo < k <= hi
  {
    if hi <= lo then {} else Interval(lo, hi - 1) + {hi}
  }

  lemma {:induction false} IntervalSize(lo: nat, hi: nat)
    requires lo <= hi
    ensures |Interval(lo, hi)| == hi - lo
    decreases hi
  {
    if lo < hi {
      IntervalSize(lo, hi - 1);
    }
  }

  /** A set of numbers above lo and at most hi has at most hi - lo members. */
  lemma BoundedSize(s: set<nat>, lo: nat, hi: nat)
    requires lo <= hi && forall k :: k in s ==> lo < k <= hi
    ensures |s| <= hi - lo
  {
    IntervalSize(lo, hi);
    assert s <= Interval(lo, hi);
    SubsetSize(s, Interval(lo, hi));
  }

  /** An injective image of a set has the size of the set. */
  lemma {:induction false} InjectionSize(a: set<nat>, image: map<nat, nat>, b: set<nat>)
    requires forall i :: i in a ==> i in image && image[i] in b
    requires forall i, j :: i in a && j in a && i < j ==> image[i] != image[j]
    ensures |a| <= |b|
    decreases a
  {
    if a != {} {
      var i :| i in a;
      forall j | j in a - {i} ensures image[j] in b - {image[i]} {
        assert image[j] != image[i];
      }
      InjectionSize(a - {i}, image, b - {image[i]});
    }
  }
}
