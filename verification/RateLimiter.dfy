/** The requests-per-minute guard of the residual extractor (src/ingest/residual.ts): a fixed
    window that starts afresh at the first call a minute or more after its start. */
module RateLimiter {

  const WINDOW_MS := 60_000

  datatype Window = Window(start: int, count: int)

  function Opened(w: Window, nowMs: int): Window {
    if nowMs - w.start >= WINDOW_MS then Window(nowMs, 0) else w
  }

  function Admits(w: Window, maxRpm: int, nowMs: int): bool {
    Opened(w, nowMs).count < maxRpm
  }

  function Next(w: Window, maxRpm: int, nowMs: int): Window {
    var o := Opened(w, nowMs);
    if Admits(w, maxRpm, nowMs) then o.(count := o.count + 1) else o
  }

  class Guard {
    var rpmWindowStart: int
    var rpmCount: int

    constructor ()
      ensures View() == Window(0, 0)
    {
      rpmWindowStart, rpmCount := 0, 0;
    }

    function View(): Window
      reads this
    {
      Window(rpmWindowStart, rpmCount)
    }

    method WithinRpm(maxRpm: int, nowMs: int) returns (admitted: bool)
      modifies this
      ensures View() == Next(old(View()), maxRpm, nowMs)
      ensures admitted == Admits(old(View()), maxRpm, nowMs)
    {
      if nowMs - rpmWindowStart >= WINDOW_MS {
        rpmWindowStart := nowMs;
        rpmCount := 0;
      }
      if rpmCount >= maxRpm { return false; }
      rpmCount := rpmCount + 1;
      admitted := true;
    }
  }

  /* ----------------------------------- call sequences --------------------------- */

  /** The window after the first n calls. */
  function After(times: seq<int>, maxRpm: int, n: nat): Window
    requires n <= |times|
  {
    if n == 0 then Window(0, 0) else Next(After(times, maxRpm, n - 1), maxRpm, times[n - 1])
  }

  predicate Admitted(times: seq<int>, maxRpm: int, i: nat)
    requires i < |times|
  {
    Admits(After(times, maxRpm, i), maxRpm, times[i])
  }

  /** How many of the first n calls fell in [t, t + len) and were admitted. */
  function AdmittedIn(times: seq<int>, maxRpm: int, n: nat, t: int, len: int): nat
    requires n <= |times|
  {
    if n == 0 then 0
    else
      AdmittedIn(times, maxRpm, n - 1, t, len) +
      if Admitted(times, maxRpm, n - 1) && t <= times[n - 1] < t + len then 1 else 0
  }

  /** The call that opened the window in force after n calls; 0 for the first window. */
  function OpenedBy(times: seq<int>, maxRpm: int, n: nat): nat
    requires n <= |times|
  {
    if n == 0 then 0
    else if times[n - 1] - After(times, maxRpm, n - 1).start >= WINDOW_MS then n - 1
    else OpenedBy(times, maxRpm, n - 1)
  }

  /** How many of the calls i, …, n - 1 were admitted. */
  function AdmittedFrom(times: seq<int>, maxRpm: int, i: nat, n: nat): nat
    requires n <= |times|
  {
    if n <= i then 0
    else AdmittedFrom(times, maxRpm, i, n - 1) + if Admitted(times, maxRpm, n - 1) then 1 else 0
  }

  ghost predicate Clock(times: seq<int>) {
    && (forall i :: 0 <= i < |times| ==> times[i] >= 0)
    && forall i, j :: 0 <= i < j < |times| ==> times[i] <= times[j]
  }

  function Cap(maxRpm: int): nat {
    if maxRpm < 0 then 0 else maxRpm
  }

  /** Whatever the clock does, at most maxRpm calls of a window are admitted, and a call is refused
      exactly when the window it falls in has admitted that many. */
  lemma {:induction false} WindowsAreCapped(times: seq<int>, maxRpm: int, n: nat)
    requires n <= |times|
    ensures AdmittedFrom(times, maxRpm, OpenedBy(times, maxRpm, n), n) == After(times, maxRpm, n).count
    ensures 0 <= After(times, maxRpm, n).count <= Cap(maxRpm)
    ensures n < |times| ==>
      var opensNew := times[n] - After(times, maxRpm, n).start >= WINDOW_MS;
      Admitted(times, maxRpm, n) <==>
        (if opensNew then 0 else AdmittedFrom(times, maxRpm, OpenedBy(times, maxRpm, n), n)) < maxRpm
  {
    if n > 0 {
      WindowsAreCapped(times, maxRpm, n - 1);
      OpenedByEarlier(times, maxRpm, n);
    }
  }

  lemma {:induction false} OpenedByEarlier(times: seq<int>, maxRpm: int, n: nat)
    requires n <= |times|
    ensures n > 0 ==> OpenedBy(times, maxRpm, n) < n
    ensures n == 0 ==> OpenedBy(times, maxRpm, n) == 0
  {
    if n > 1 { OpenedByEarlier(times, maxRpm, n - 1); }
  }

  /** What is known of an interval of one window's length after n calls: nothing admitted while the
      clock is before it; at most the current window's count while that window opened before it;
      one more full window while the current one opened inside it; two full windows in all. */
  ghost predicate SoFar(times: seq<int>, maxRpm: int, n: nat, t: int)
    requires n <= |times|
  {
    var w, admitted := After(times, maxRpm, n), AdmittedIn(times, maxRpm, n, t, WINDOW_MS);
    && 0 <= w.start && 0 <= w.count <= Cap(maxRpm)
    && (n > 0 ==> w.start <= times[n - 1] < w.start + WINDOW_MS)
    && (n == 0 || times[n - 1] < t ==> admitted == 0)
    && (w.start <= t ==> admitted <= w.count)
    && (w.start < t + WINDOW_MS ==> admitted <= Cap(maxRpm) + w.count)
    && admitted <= 2 * Cap(maxRpm)
  }

  lemma {:induction false} SoFarHolds(times: seq<int>, maxRpm: int, n: nat, t: int)
    requires Clock(times) && n <= |times|
    ensures SoFar(times, maxRpm, n, t)
  {
    if n > 0 {
      SoFarHolds(times, maxRpm, n - 1, t);
      assert times[n - 1] >= 0 && (n > 1 ==> times[n - 2] <= times[n - 1]);
    }
  }

  /** With a clock that never runs backwards, at most 2 * maxRpm calls are admitted in any interval
      of a minute, wherever it starts. */
  lemma {:induction false} AtMostTwicePerMinute(times: seq<int>, maxRpm: int, t: int)
    requires Clock(times)
    ensures AdmittedIn(times, maxRpm, |times|, t, 60_000) <= 2 * Cap(maxRpm)
  {
    SoFarHolds(times, maxRpm, |times|, t);
  }

  /* ------------------------------- the bound is reached ------------------------- */

  /** maxRpm calls at the last millisecond of the first window, and as many a millisecond later. */
  function Burst(maxRpm: nat): seq<int> {
    seq(2 * maxRpm, i => if i < maxRpm then WINDOW_MS - 1 else WINDOW_MS)
  }

  lemma {:induction false} BurstSoFar(maxRpm: nat, n: nat)
    requires n <= 2 * maxRpm
    ensures var times := Burst(maxRpm);
            && After(times, maxRpm, n) == (if n <= maxRpm then Window(0, n) else Window(WINDOW_MS, n - maxRpm))
            && AdmittedIn(times, maxRpm, n, WINDOW_MS - 1, 2) == n
  {
    if n > 0 { BurstSoFar(maxRpm, n - 1); }
  }

  /** No smaller bound holds: for every maxRpm some calls have 2 * maxRpm admitted within 2 ms. */
  lemma {:induction false} TwiceIsReached(maxRpm: nat)
    ensures Clock(Burst(maxRpm))
    ensures AdmittedIn(Burst(maxRpm), maxRpm, |Burst(maxRpm)|, 59_999, 2) == 2 * maxRpm
  {
    BurstSoFar(maxRpm, 2 * maxRpm);
  }

  /* --------------------------- a clock running backwards ------------------------ */

  /** By turns a call that opens a new window and a call at time 0, which falls in that window. */
  function Seesaw(n: nat): seq<int> {
    seq(2 * n, i => if i % 2 == 0 then (i / 2 + 1) * WINDOW_MS else 0)
  }

  lemma {:induction false} SeesawSoFar(n: nat, maxRpm: int, len: int, k: nat)
    requires k <= n && maxRpm >= 2 && 0 < len <= WINDOW_MS
    ensures var times := Seesaw(n);
            && After(times, maxRpm, 2 * k).start == k * WINDOW_MS
            && AdmittedIn(times, maxRpm, 2 * k, 0, len) == k
  {
    if k > 0 {
      SeesawSoFar(n, maxRpm, len, k - 1);
      var times, i := Seesaw(n), 2 * (k - 1);
      assert i / 2 == k - 1 && i % 2 == 0 && (i + 1) % 2 == 1;
      assert times[i] == k * WINDOW_MS && times[i + 1] == 0;
      var w := After(times, maxRpm, i + 1);
      assert w == Next(After(times, maxRpm, i), maxRpm, times[i]);
      assert w == Window(k * WINDOW_MS, 1);
      assert After(times, maxRpm, i + 2) == Next(w, maxRpm, 0) == Window(k * WINDOW_MS, 2);
    }
  }

  /** With two or more requests a minute and a clock that may fall there is no bound: any number of
      calls can be admitted at one and the same clock time. */
  lemma {:induction false} BackwardClockIsUnbounded(n: nat, maxRpm: int)
    requires maxRpm >= 2
    ensures AdmittedIn(Seesaw(n), maxRpm, |Seesaw(n)|, 0, 1) == n
  {
    SeesawSoFar(n, maxRpm, 1, n);
  }

  /** With one request a minute every admitted call after the first opens a window, and windows open
      a minute or more apart. */
  lemma {:induction false} OnePerWindowSoFar(times: seq<int>, maxRpm: int, n: nat, t: int)
    requires n <= |times| && maxRpm <= 1
    ensures var w, admitted := After(times, maxRpm, n), AdmittedIn(times, maxRpm, n, t, WINDOW_MS);
            && 0 <= w.count <= Cap(maxRpm) && admitted <= 2 * Cap(maxRpm)
            && (w.count == 0 ==> admitted == 0) && (w.start < t ==> admitted <= 1)
  {
    if n > 0 { OnePerWindowSoFar(times, maxRpm, n - 1, t); }
  }

  /** Twice the limit bounds every minute of every clock, falling or not, exactly when at most one
      request a minute is allowed. */
  lemma {:induction false} AnyClockIsBoundedIff(maxRpm: int)
    ensures (forall times: seq<int>, t :: AdmittedIn(times, maxRpm, |times|, t, WINDOW_MS) <= 2 * Cap(maxRpm))
       <==> maxRpm <= 1
  {
    if maxRpm <= 1 {
      forall times: seq<int>, t ensures AdmittedIn(times, maxRpm, |times|, t, WINDOW_MS) <= 2 * Cap(maxRpm) {
        OnePerWindowSoFar(times, maxRpm, |times|, t);
      }
    } else {
      var n := 2 * maxRpm + 1;
      SeesawSoFar(n, maxRpm, WINDOW_MS, n);
      assert AdmittedIn(Seesaw(n), maxRpm, |Seesaw(n)|, 0, WINDOW_MS) == n;
    }
  }
}
