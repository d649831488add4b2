/** Which lines the transcript watcher hands on, byte by byte
    (src/workers/transcript-watcher.ts), and where a first run starts. */
module TailLines {
  import opened SeqTools
  import opened TranscriptTail

  /** l is a whole line of f: it starts at lo or after a break, holds none, and its own break lies
      below hi. */
  ghost predicate WholeLine(f: Bytes, lo: nat, hi: nat, l: Line)
    requires lo <= hi <= |f|
  {
    var end := l.start + |l.text|;
    && lo <= l.start && end < hi && l.text == f[l.start..end] && f[end] == NL
    && (forall k :: l.start <= k < end ==> f[k] != NL)
    && (l.start == lo || f[l.start - 1] == NL)
  }

  lemma {:induction false} LinesAreWhole(f: Bytes, lo: nat, hi: nat, l: Line)
    requires lo <= hi <= |f|
    ensures l in LinesIn(f, lo, hi) <==> WholeLine(f, lo, hi, l)
    decreases hi - lo
  {
    var n := NextBreak(f, lo, hi);
    if n < hi {
      LinesAreWhole(f, n + 1, hi, l);
      var first := Line(lo, f[lo..n]);
      if WholeLine(f, lo, hi, l) && l.start == lo { assert l.start + |l.text| == n && l == first; }
      if WholeLine(f, lo, hi, l) && l.start > lo { assert l.start - 1 >= n; }
    }
  }

  lemma {:induction false} KeptAmong(wanted: Bytes -> bool, ls: seq<Line>, l: Line)
    ensures l in FlatMap(Kept(wanted), ls) <==> l in ls && l.text != [] && wanted(l.text)
  {
    if ls != [] { KeptAmong(wanted, ls[1..], l); }
  }

  /** A tick hands on exactly the whole lines of its range that are not empty and are wanted. */
  lemma {:induction false} HandedAreWantedLines(f: Bytes, wanted: Bytes -> bool, lo: nat, hi: nat, l: Line)
    requires lo <= hi <= |f|
    ensures l in Handed(f, wanted, lo, hi) <==> WholeLine(f, lo, hi, l) && l.text != [] && wanted(l.text)
  {
    LinesAreWhole(f, lo, hi, l);
    KeptAmong(wanted, LinesIn(f, lo, hi), l);
  }

  /** So in every interleaving each wanted line that lies wholly between the first offset and the
      stored one has been handed on, and nothing but wanted whole lines of the file ever is. */
  lemma {:induction false} EveryWantedLineIsHandedOn(c: Config, run: seq<Watch>, es: seq<Event>, k: nat, l: Line)
    requires Run(c, run, es) && k < |run|
    ensures var w, origin := run[k], run[0].stored;
            && origin <= w.stored <= |w.file|
            && (WholeLine(w.file, origin, w.stored, l) && l.text != [] && c.wanted(l.text) ==> l in w.log)
            && (l in w.log ==> WholeLine(w.file, origin, |w.file|, l) && l.text != [] && c.wanted(l.text))
  {
    NoLineIsSkipped(c, run, es, k);
    var w, origin := run[k], run[0].stored;
    HandedAreWantedLines(w.file, c.wanted, origin, w.stored, l);
    HandedAreWantedLines(w.file, c.wanted, origin, |w.file|, l);
  }

  /** The j-th byte from lo on is the first line break from there. */
  ghost predicate FirstBreakAt(f: Bytes, lo: nat, j: nat) {
    lo + j < |f| && f[lo + j] == NL && forall i :: lo <= i < lo + j ==> f[i] != NL
  }

  /** With nothing to go back to, a first run starts at the end of the file, and in a file no longer
      than that at its beginning; else it starts right after the first break among the last
      `backfill` bytes if the probe finds it, and at the first of those bytes if not. */
  lemma {:induction false} FirstRunStartsAtLine(f: Bytes, backfill: nat, snap: Option<nat>)
    requires snap.Some? && |f| > backfill ==> FirstBreakAt(f, |f| - backfill, snap.value)
    ensures var start := FirstStart(|f|, backfill, snap);
            && start <= |f|
            && (backfill == 0 ==> start == |f|)
            && (0 < backfill && |f| <= backfill ==> start == 0)
            && (0 < backfill < |f| ==>
                  && |f| - backfill <= start
                  && (snap.None? ==> start == |f| - backfill)
                  && (snap.Some? ==> start > |f| - backfill && f[start - 1] == NL
                                     && forall i :: |f| - backfill <= i < start - 1 ==> f[i] != NL))
  {
  }
}
