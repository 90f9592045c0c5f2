/** The per-key sliding-window limiter of the device API (server/internal/admin/auth_device.go). */
module RateLimiting {

  const RATE_LIMIT_MAX := 60
  const RATE_LIMIT_WINDOW := 60_000_000_000

  type Windows = map<string, seq<int>>

  /** The timestamps after the cutoff, in order. */
  function After(s: seq<int>, cutoff: int): (r: seq<int>)
    ensures |r| <= |s|
  {
    if s == [] then [] else
    var init := After(s[..|s| - 1], cutoff);
    if s[|s| - 1] > cutoff then init + [s[|s| - 1]] else init
  }

  function TimesOf(w: Windows, key: string): seq<int> {
    if key in w then w[key] else []
  }

  function Kept(w: Windows, key: string, now: int): seq<int> {
    After(TimesOf(w, key), now - RATE_LIMIT_WINDOW)
  }

  predicate Admits(w: Windows, key: string, now: int) {
    |Kept(w, key, now)| < RATE_LIMIT_MAX
  }

  function Requested(w: Windows, key: string, now: int): Windows {
    w[key := if Admits(w, key, now) then Kept(w, key, now) + [now] else Kept(w, key, now)]
  }

  /** The janitor drops a key that has no timestamp, or whose last one is before the cutoff. */
  predicate IsIdle(times: seq<int>, cutoff: int) {
    times == [] || times[|times| - 1] < cutoff
  }

  function Swept(w: Windows, now: int): Windows {
    map k | k in w && !IsIdle(w[k], now - RATE_LIMIT_WINDOW) :: w[k]
  }

  // ----- whole runs -----

  datatype Event = Request(key: string, at: int) | Sweep(at: int)

  function Run(events: seq<Event>): Windows {
    if events == [] then map[] else
    var before := Run(events[..|events| - 1]);
    match events[|events| - 1]
    case Request(k, at) => Requested(before, k, at)
    case Sweep(at) => Swept(before, at)
  }

  /** The times at which requests of this key were let through, read off the events. */
  function Admitted(events: seq<Event>, key: string): seq<int> {
    if events == [] then [] else
    var init, last := events[..|events| - 1], events[|events| - 1];
    if last.Request? && last.key == key && Admits(Run(init), key, last.at) then Admitted(init, key) + [last.at]
    else Admitted(init, key)
  }

  /** The clock never runs backwards. */
  ghost predicate Timed(events: seq<Event>) {
    forall i, j :: 0 <= i < j < |events| ==> events[i].at <= events[j].at
  }

  ghost predicate AllBy(events: seq<Event>, now: int) {
    forall i :: 0 <= i < |events| ==> events[i].at <= now
  }

  ghost predicate Sorted(s: seq<int>, last: int) {
    (forall i, j :: 0 <= i < j < |s| ==> s[i] <= s[j]) && forall i :: 0 <= i < |s| ==> s[i] <= last
  }

  lemma {:induction false} AfterAfter(s: seq<int>, c: int, d: int)
    requires c <= d
    ensures After(After(s, c), d) == After(s, d)
  {
    if s != [] {
      var init, last := s[..|s| - 1], s[|s| - 1];
      AfterAfter(init, c, d);
      if last > c {
        var r := After(init, c) + [last];
        assert r[..|r| - 1] == After(init, c);
      }
    }
  }

  lemma AfterAppend(s: seq<int>, x: int, c: int)
    ensures After(s + [x], c) == if x > c then After(s, c) + [x] else After(s, c)
  {
    assert (s + [x])[..|s|] == s;
  }

  lemma {:induction false} AfterSorted(s: seq<int>, c: int, last: int)
    requires Sorted(s, last)
    ensures Sorted(After(s, c), last)
  {
    if s != [] {
      AfterSorted(s[..|s| - 1], c, s[|s| - 1]);
    }
  }

  lemma {:induction false} AllBeforeCutoff(s: seq<int>, c: int)
    requires forall i :: 0 <= i < |s| ==> s[i] <= c
    ensures After(s, c) == []
  {
    if s != [] {
      AllBeforeCutoff(s[..|s| - 1], c);
    }
  }

  lemma RequestKeeps(w: Windows, key: string, at: int, now: int)
    requires at <= now
    ensures var d := now - RATE_LIMIT_WINDOW;
            Kept(Requested(w, key, at), key, now) ==
            if Admits(w, key, at) && at > d then After(TimesOf(w, key), d) + [at] else After(TimesOf(w, key), d)
  {
    var c, d := at - RATE_LIMIT_WINDOW, now - RATE_LIMIT_WINDOW;
    AfterAfter(TimesOf(w, key), c, d);
    AfterAppend(Kept(w, key, at), at, d);
  }

  lemma RequestSorted(w: Windows, key: string, at: int)
    requires Sorted(TimesOf(w, key), at)
    ensures Sorted(TimesOf(Requested(w, key, at), key), at)
  {
    AfterSorted(TimesOf(w, key), at - RATE_LIMIT_WINDOW, at);
  }

  /** Sweeping removes only timestamps that no longer matter. */
  lemma SweepKeeps(w: Windows, key: string, at: int, now: int)
    requires at <= now && Sorted(TimesOf(w, key), at)
    ensures Kept(Swept(w, at), key, now) == Kept(w, key, now) && Sorted(TimesOf(Swept(w, at), key), at)
  {
    if key in w && IsIdle(w[key], at - RATE_LIMIT_WINDOW) && w[key] != [] {
      AllBeforeCutoff(w[key], now - RATE_LIMIT_WINDOW);
    }
  }

  lemma {:induction false} WindowSorted(events: seq<Event>, key: string, now: int)
    requires Timed(events) && AllBy(events, now)
    ensures Sorted(TimesOf(Run(events), key), now)
  {
    if events != [] {
      var init, last := events[..|events| - 1], events[|events| - 1];
      TimedPrefix(events);
      WindowSorted(init, key, last.at);
      match last
      case Request(k, at) =>
        if k == key {
          RequestSorted(Run(init), key, at);
        }
      case Sweep(at) => SweepKeeps(Run(init), key, at, at);
    }
  }

  lemma TimedPrefix(events: seq<Event>)
    requires Timed(events) && events != []
    ensures Timed(events[..|events| - 1]) && AllBy(events[..|events| - 1], events[|events| - 1].at)
  {
  }

  lemma ByLast(events: seq<Event>, now: int)
    requires AllBy(events, now) && events != []
    ensures AllBy(events[..|events| - 1], now) && events[|events| - 1].at <= now
  {
  }

  /** The stored window of a key agrees with its admissions on everything still inside the last minute. */
  lemma {:induction false} WindowTracksAdmissions(events: seq<Event>, key: string, now: int)
    requires Timed(events) && AllBy(events, now)
    ensures Kept(Run(events), key, now) == After(Admitted(events, key), now - RATE_LIMIT_WINDOW)
  {
    hide After, Timed, Sorted, AllBy;
    if events == [] {
      assert Run(events) == map[];
    } else {
      var init, last := events[..|events| - 1], events[|events| - 1];
      TimedPrefix(events);
      ByLast(events, now);
      WindowTracksAdmissions(init, key, now);
      match last
      case Request(k, at) =>
        if k == key {
          RequestKeeps(Run(init), key, at, now);
          AfterAppend(Admitted(init, key), at, now - RATE_LIMIT_WINDOW);
        }
      case Sweep(at) =>
        WindowSorted(init, key, at);
        SweepKeeps(Run(init), key, at, now);
    }
  }

  lemma {:induction false} AfterShrinks(s: seq<int>, c: int, d: int)
    requires c <= d
    ensures |After(s, d)| <= |After(s, c)|
  {
    if s != [] {
      AfterShrinks(s[..|s| - 1], c, d);
    }
  }

  /** The timestamps in (lo, hi], in order. */
  function Between(s: seq<int>, lo: int, hi: int): seq<int> {
    if s == [] then [] else
    var init := Between(s[..|s| - 1], lo, hi);
    if lo < s[|s| - 1] <= hi then init + [s[|s| - 1]] else init
  }

  lemma {:induction false} BetweenIsAfter(s: seq<int>, lo: int, hi: int)
    requires forall i :: 0 <= i < |s| ==> s[i] <= hi
    ensures Between(s, lo, hi) == After(s, lo)
  {
    if s != [] {
      BetweenIsAfter(s[..|s| - 1], lo, hi);
    }
  }

  lemma {:induction false} AdmittedBy(events: seq<Event>, key: string, end: int)
    requires AllBy(events, end)
    ensures forall i :: 0 <= i < |Admitted(events, key)| ==> Admitted(events, key)[i] <= end
  {
    if events != [] {
      ByLast(events, end);
      AdmittedBy(events[..|events| - 1], key, end);
    }
  }

  /** Over any run, no minute (end - 60 s, end] whatsoever sees more than sixty admissions of a key. */
  lemma {:induction false} AtMostSixtyInAnyMinute(events: seq<Event>, key: string, end: int)
    requires Timed(events)
    ensures |Between(Admitted(events, key), end - RATE_LIMIT_WINDOW, end)| <= RATE_LIMIT_MAX
  {
    if events == [] || events[|events| - 1].at <= end {
      assert AllBy(events, end);
      AdmittedBy(events, key, end);
      BetweenIsAfter(Admitted(events, key), end - RATE_LIMIT_WINDOW, end);
      AtMostSixtyPerMinute(events, key, end);
    } else {
      var init, last := events[..|events| - 1], events[|events| - 1];
      TimedPrefix(events);
      AtMostSixtyInAnyMinute(init, key, end);
      assert (Admitted(init, key) + [last.at])[..|Admitted(init, key)|] == Admitted(init, key);
    }
  }

  /** The minute that ends with the run. */
  lemma {:induction false} AtMostSixtyPerMinute(events: seq<Event>, key: string, end: int)
    requires Timed(events) && AllBy(events, end)
    ensures |After(Admitted(events, key), end - RATE_LIMIT_WINDOW)| <= RATE_LIMIT_MAX
  {
    hide After, Timed, AllBy, Run;
    if events != [] {
      var init, last := events[..|events| - 1], events[|events| - 1];
      TimedPrefix(events);
      ByLast(events, end);
      AtMostSixtyPerMinute(init, key, end);
      if last.Request? && last.key == key && Admits(Run(init), key, last.at) {
        WindowTracksAdmissions(init, key, last.at);
        AfterShrinks(Admitted(init, key), last.at - RATE_LIMIT_WINDOW, end - RATE_LIMIT_WINDOW);
        AfterAppend(Admitted(init, key), last.at, end - RATE_LIMIT_WINDOW);
      }
    }
  }

  /** A request is let through exactly when fewer than sixty of its key were let through in the last minute. */
  lemma AdmitsIffUnderSixty(events: seq<Event>, key: string, now: int)
    requires Timed(events) && AllBy(events, now)
    ensures Admits(Run(events), key, now) <==> |Between(Admitted(events, key), now - 60_000_000_000, now)| < 60
  {
    WindowTracksAdmissions(events, key, now);
    AdmittedBy(events, key, now);
    BetweenIsAfter(Admitted(events, key), now - RATE_LIMIT_WINDOW, now);
  }

  /** Between counts the positions of the list whose value lies in the interval. */
  lemma BetweenAppend(s: seq<int>, x: int, lo: int, hi: int)
    ensures Between([], lo, hi) == []
    ensures |Between(s + [x], lo, hi)| == |Between(s, lo, hi)| + if lo < x <= hi then 1 else 0
  {
    assert (s + [x])[..|s|] == s;
  }

  /** After any run the janitor removes a key exactly if none of its stored times lies in the last minute or at its very
      start, and leaves every other key as it was. */
  lemma SweptExactly(events: seq<Event>, now: int, key: string)
    requires Timed(events) && AllBy(events, now)
    ensures var w, swept := Run(events), Swept(Run(events), now);
            && (key in swept <==>
                  key in w && exists i :: 0 <= i < |w[key]| && w[key][i] >= now - 60_000_000_000)
            && (key in swept ==> swept[key] == w[key])
  {
    hide Run;
    WindowSorted(events, key, now);
    var w := Run(events);
    if key in w && w[key] != [] {
      assert forall i :: 0 <= i < |w[key]| ==> w[key][i] <= w[key][|w[key]| - 1];
    }
  }

  class KeyRateLimiter {
    var windows: Windows

    constructor ()
      ensures windows == Run([])
    {
      windows := map[];
    }

    method Allow(key: string, now: int) returns (ok: bool)
      modifies this
      ensures ok == Admits(old(windows), key, now) && windows == Requested(old(windows), key, now)
    {
      var times := if key in windows then windows[key] else [];
      var cutoff := now - RATE_LIMIT_WINDOW;
      var kept := [];
      for i := 0 to |times|
        invariant kept == After(times[..i], cutoff) && windows == old(windows)
      {
        assert times[..i + 1][..i] == times[..i];
        if times[i] > cutoff {
          kept := kept + [times[i]];
        }
      }
      assert times[..|times|] == times;
      if |kept| >= RATE_LIMIT_MAX {
        windows := windows[key := kept];
        return false;
      }
      windows := windows[key := kept + [now]];
      ok := true;
    }

    /** One round of the janitor. */
    method Janitor(now: int)
      modifies this
      ensures windows == Swept(old(windows), now)
    {
      var cutoff := now - RATE_LIMIT_WINDOW;
      var todo := windows.Keys;
      while todo != {}
        invariant todo <= old(windows).Keys
        invariant windows ==
                  map k | k in old(windows) && (k in todo || !IsIdle(old(windows)[k], cutoff)) :: old(windows)[k]
        decreases todo
      {
        var k :| k in todo;
        todo := todo - {k};
        if |windows[k]| == 0 || windows[k][|windows[k]| - 1] < cutoff {
          windows := windows - {k};
        }
      }
    }
  }
}
