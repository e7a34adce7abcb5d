/** Counting in fixed windows, by the history of attempts: both the guard of
    internal/ratelimit/ip_guard.go and the session manager of internal/udp/session.go count so. */
module FixedWindow {

  datatype Ask = Ask(now: int, granted: bool)

  /** When the window began that an attempt at that time falls into. The first attempt begins one,
      and so does every attempt that comes a window's length or more after the last one began. */
  function Began(asks: seq<Ask>, window: nat, now: int): int
  {
    if asks == [] then now
    else
      var n := |asks| - 1;
      var before := Began(asks[..n], window, asks[n].now);
      if now - before >= window then now else before
  }

  /** How many attempts were granted at that time or later. */
  function Granted(asks: seq<Ask>, from: int): nat
  {
    if asks == [] then 0
    else
      var last := asks[|asks| - 1];
      Granted(asks[..|asks| - 1], from) + if last.granted && last.now >= from then 1 else 0
  }

  predicate Sorted(asks: seq<Ask>, until: int)
  {
    && (forall i, j :: 0 <= i < j < |asks| ==> asks[i].now <= asks[j].now)
    && (forall i :: 0 <= i < |asks| ==> asks[i].now <= until)
  }

  lemma {:induction false} BeganLately(asks: seq<Ask>, window: nat, now: int)
    requires window > 0 && Sorted(asks, now)
    ensures now - window < Began(asks, window, now) <= now
    decreases |asks|
  {
    if asks != [] {
      var n := |asks| - 1;
      BeganLately(asks[..n], window, asks[n].now);
    }
  }

  lemma {:induction false} NoneSince(asks: seq<Ask>, from: int)
    requires forall i :: 0 <= i < |asks| ==> asks[i].now < from
    ensures Granted(asks, from) == 0
    decreases |asks|
  {
    if asks != [] {
      NoneSince(asks[..|asks| - 1], from);
    }
  }

  /** A start and a counter that say what the history says of the window of the last attempt. */
  predicate Tracks(asks: seq<Ask>, window: nat, start: int, count: nat)
  {
    asks != [] && start == Began(asks[..|asks| - 1], window, asks[|asks| - 1].now) && count == Granted(asks, start)
  }

  /** Starting again when the window has passed gives the start and the count of the next attempt. */
  lemma NextWindow(asks: seq<Ask>, window: nat, start: int, count: nat, now: int)
    requires window > 0 && Sorted(asks, now) && (asks != [] ==> Tracks(asks, window, start, count))
    ensures var again := asks == [] || now - start >= window;
            && Began(asks, window, now) == (if again then now else start)
            && Granted(asks, Began(asks, window, now)) == (if again then 0 else count)
  {
    if asks != [] {
      var n := |asks| - 1;
      BeganLately(asks[..n], window, asks[n].now);
      if now - start >= window {
        NoneSince(asks, now);
      }
    }
  }

  lemma TracksOn(asks: seq<Ask>, window: nat, now: int, granted: bool)
    requires window > 0 && Sorted(asks, now)
    ensures var start := Began(asks, window, now);
            Tracks(asks + [Ask(now, granted)], window, start, Granted(asks, start) + if granted then 1 else 0)
    ensures Sorted(asks + [Ask(now, granted)], now)
  {
    BeganLately(asks, window, now);
    assert (asks + [Ask(now, granted)])[..|asks|] == asks;
  }
}
