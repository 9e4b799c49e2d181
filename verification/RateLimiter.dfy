/** The user search's fixed-window request counter (apps/api/src/search.rs:78-130). Times are
    nanoseconds of a monotonic clock. */
module RateLimiter {
  const MAX_REQUESTS: nat := 30
  const WINDOW: nat := 60_000_000_000

  datatype Window = Window(startedAt: nat, count: nat)

  /** `duration_since` never goes below zero. */
  function Since(now: nat, startedAt: nat): nat { if now < startedAt then 0 else now - startedAt }

  function Rolled(w: Window, now: nat): Window {
    if Since(now, w.startedAt) >= WINDOW then Window(now, 0) else w
  }

  predicate Admits(w: Window, now: nat) { Rolled(w, now).count < MAX_REQUESTS }

  function After(w: Window, now: nat): Window {
    var r := Rolled(w, now);
    if Admits(w, now) then r.(count := r.count + 1) else r
  }

  class SearchRateLimiter {
    var startedAt: nat
    var count: nat

    function View(): Window
      reads this
    {
      Window(startedAt, count)
    }

    constructor (now: nat)
      ensures View() == Window(now, 0)
    {
      startedAt, count := now, 0;
    }

    method TryAcquire(now: nat) returns (ok: bool)
      modifies this
      ensures ok == Admits(old(View()), now) && View() == After(old(View()), now)
      ensures ok <==> now >= old(startedAt) + 60_000_000_000 || old(count) < 30
      ensures startedAt == if now >= old(startedAt) + 60_000_000_000 then now else old(startedAt)
      ensures count == if now >= old(startedAt) + 60_000_000_000 then 1 else old(count) + if ok then 1 else 0
    {
      var elapsed := if now < startedAt then 0 else now - startedAt;
      if elapsed >= WINDOW {
        startedAt := now;
        count := 0;
      }
      if count >= MAX_REQUESTS {
        ok := false;
      } else {
        count := count + 1;
        ok := true;
      }
    }
  }

  // ----- Histories

  predicate NonDecreasing(start: nat, times: seq<nat>) {
    && (forall i :: 0 <= i < |times| ==> start <= times[i])
    && (forall i, j :: 0 <= i < j < |times| ==> times[i] <= times[j])
  }

  /** How many of the requests at these times are accepted within [from, end). */
  function Accepted(w: Window, times: seq<nat>, from: nat, end: nat): nat
    decreases |times|
  {
    if times == [] then 0
    else
      (if Admits(w, times[0]) && from <= times[0] < end then 1 else 0) + Accepted(After(w, times[0]), times[1..], from, end)
  }

  lemma TailNonDecreasing(w: Window, times: seq<nat>)
    requires NonDecreasing(w.startedAt, times) && times != []
    ensures NonDecreasing(After(w, times[0]).startedAt, times[1..])
  {
  }

  /** From a window that has accepted `count`, m windows' time admits the rest of m budgets. */
  lemma {:induction false} AcceptedBefore(w: Window, times: seq<nat>, from: nat, end: nat, m: nat)
    requires NonDecreasing(w.startedAt, times) && w.count <= MAX_REQUESTS
    requires m >= 1 && end <= w.startedAt + WINDOW * m
    ensures Accepted(w, times, from, end) <= MAX_REQUESTS * m - w.count
    decreases |times|
  {
    if times != [] {
      var t, w' := times[0], After(w, times[0]);
      TailNonDecreasing(w, times);
      if t >= end {
        NoneFromEnd(w, times, from, end);
      } else if Since(t, w.startedAt) >= WINDOW {
        assert m >= 2;
        AcceptedBefore(w', times[1..], from, end, m - 1);
      } else {
        AcceptedBefore(w', times[1..], from, end, m);
      }
    }
  }

  lemma {:induction false} NoneFromEnd(w: Window, times: seq<nat>, from: nat, end: nat)
    requires NonDecreasing(w.startedAt, times) && (times != [] ==> times[0] >= end)
    ensures Accepted(w, times, from, end) == 0
    decreases |times|
  {
    if times != [] {
      TailNonDecreasing(w, times);
      NoneFromEnd(After(w, times[0]), times[1..], from, end);
    }
  }

  /** Whatever the request times, any half-open interval of k windows has at most k + 1 budgets
      accepted in it. */
  lemma {:induction false} AtMostOneBudgetMore(w: Window, times: seq<nat>, from: nat, k: nat)
    requires NonDecreasing(w.startedAt, times) && w.count <= MAX_REQUESTS
    ensures Accepted(w, times, from, from + k * WINDOW) <= (k + 1) * MAX_REQUESTS
    decreases |times|
  {
    if times != [] {
      var t, w', end := times[0], After(w, times[0]), from + k * WINDOW;
      TailNonDecreasing(w, times);
      if t < from {
        AtMostOneBudgetMore(w', times[1..], from, k);
      } else if t >= end {
        NoneFromEnd(w, times, from, end);
      } else if Since(t, w.startedAt) >= WINDOW {
        assert k >= 1;
        AcceptedBefore(w', times[1..], from, end, k);
      } else {
        AcceptedBefore(w', times[1..], from, end, k + 1);
      }
    }
  }

  /** The window after the requests at these times. */
  function Run(w: Window, times: seq<nat>): Window
    decreases |times|
  {
    if times == [] then w else Run(After(w, times[0]), times[1..])
  }

  /** The counter is the number of requests accepted since its window began. */
  lemma {:induction false} CountIsAccepted(w: Window, times: seq<nat>, end: nat)
    requires NonDecreasing(w.startedAt, times) && w.count <= MAX_REQUESTS && (times != [] ==> times[|times| - 1] < end)
    ensures var r := Run(w, times);
            && r.count <= MAX_REQUESTS
            && (r.startedAt == w.startedAt || w.startedAt + WINDOW <= r.startedAt)
            && (times != [] ==> r.startedAt <= times[|times| - 1])
            && Accepted(w, times, r.startedAt, end) + (if r.startedAt == w.startedAt then w.count else 0) == r.count
    decreases |times|
  {
    if times != [] {
      TailNonDecreasing(w, times);
      CountIsAccepted(After(w, times[0]), times[1..], end);
      assert times[1..] != [] ==> times[1..][|times[1..]| - 1] == times[|times| - 1];
    }
  }

  /** A request is refused only in a window that began less than a window's length ago and has
      accepted its whole budget since. */
  lemma RefusedOnlyWhenSpent(start: nat, times: seq<nat>, now: nat) returns (from: nat)
    requires NonDecreasing(start, times + [now]) && !Admits(Run(Window(start, 0), times), now)
    ensures start <= from <= now < from + WINDOW
    ensures Accepted(Window(start, 0), times, from, now + 1) == MAX_REQUESTS
  {
    var r := Run(Window(start, 0), times);
    var all := times + [now];
    assert all[|times|] == now;
    assert forall i :: 0 <= i < |times| ==> times[i] == all[i];
    assert times != [] ==> times[|times| - 1] == all[|times| - 1] <= now;
    CountIsAccepted(Window(start, 0), times, now + 1);
    from := r.startedAt;
  }

  // ----- The bound is reached

  /** A budget's worth of requests at one time. */
  function Burst(t: nat, n: nat): seq<nat> { seq(n, _ => t) }

  /** Bursts at one window, two windows, and so on up to k. */
  function Bursts(k: nat): seq<nat> {
    if k == 0 then [] else Bursts(k - 1) + Burst(k * WINDOW, MAX_REQUESTS)
  }

  lemma {:induction false} BurstAccepted(w: Window, t: nat, n: nat, from: nat, end: nat)
    requires w.startedAt <= t < w.startedAt + WINDOW && w.count + n <= MAX_REQUESTS && from <= t < end
    decreases n
    ensures Accepted(w, Burst(t, n), from, end) == n && Run(w, Burst(t, n)) == Window(w.startedAt, w.count + n)
  {
    if n > 0 {
      assert Burst(t, n)[1..] == Burst(t, n - 1);
      BurstAccepted(After(w, t), t, n - 1, from, end);
    }
  }

  /** A burst a window or more later is accepted whole, in a new window. */
  lemma LateBurstAccepted(w: Window, t: nat, from: nat, end: nat)
    requires w.startedAt + WINDOW <= t && from <= t < end
    ensures Accepted(w, Burst(t, MAX_REQUESTS), from, end) == MAX_REQUESTS
    ensures Run(w, Burst(t, MAX_REQUESTS)) == Window(t, MAX_REQUESTS)
  {
    assert Burst(t, MAX_REQUESTS)[1..] == Burst(t, MAX_REQUESTS - 1);
    BurstAccepted(Window(t, 1), t, MAX_REQUESTS - 1, from, end);
  }

  lemma {:induction false} AcceptedConcat(w: Window, first: seq<nat>, more: seq<nat>, from: nat, end: nat)
    ensures Accepted(w, first + more, from, end) == Accepted(w, first, from, end) + Accepted(Run(w, first), more, from, end)
    ensures Run(w, first + more) == Run(Run(w, first), more)
    decreases |first|
  {
    if first == [] {
      assert first + more == more;
    } else {
      AcceptedConcat(After(w, first[0]), first[1..], more, from, end);
      assert (first + more)[1..] == first[1..] + more;
    }
  }

  lemma {:induction false} BurstsAccepted(w: Window, k: nat, from: nat, end: nat)
    requires w.startedAt == 0 && from <= WINDOW && k * WINDOW < end
    ensures Accepted(w, Bursts(k), from, end) == k * MAX_REQUESTS
    ensures Run(w, Bursts(k)).startedAt == k * WINDOW
  {
    if k > 0 {
      BurstsAccepted(w, k - 1, from, end);
      AcceptedConcat(w, Bursts(k - 1), Burst(k * WINDOW, MAX_REQUESTS), from, end);
      LateBurstAccepted(Run(w, Bursts(k - 1)), k * WINDOW, from, end);
    }
  }

  /** The bound cannot be lowered: bursts just before the end of the first window and at the start of
      each of the next k fill k + 1 budgets in k windows' time. */
  lemma BoundIsReached(k: nat)
    ensures var from := WINDOW - 1;
            k >= 1 ==> Accepted(Window(0, 0), Burst(from, MAX_REQUESTS) + Bursts(k), from, from + k * WINDOW)
                       == (k + 1) * MAX_REQUESTS
  {
    var from := WINDOW - 1;
    if k >= 1 {
      AcceptedConcat(Window(0, 0), Burst(from, MAX_REQUESTS), Bursts(k), from, from + k * WINDOW);
      BurstAccepted(Window(0, 0), from, MAX_REQUESTS, from, from + k * WINDOW);
      BurstsAccepted(Window(0, MAX_REQUESTS), k, from, from + k * WINDOW);
    }
  }
}
