/** The transcript watcher's byte-offset cursor over a growing file
    (src/workers/transcript-watcher.ts). A line break is byte 0x0A, which in UTF-8 only ever
    encodes itself (section 3 of RFC 3629). */
module TranscriptTail {
  import opened SeqTools

  newtype byte = b: int | 0 <= b < 256
  type Bytes = seq<byte>

  const NL: byte := 10

  /** A complete line: where it starts and its bytes without the line break. */
  datatype Line = Line(start: nat, text: Bytes)

  /* ----------------------------------- lines ---------------------------------- */

  function NextBreak(f: Bytes, lo: nat, hi: nat): (n: nat)
    requires lo <= hi <= |f|
    ensures lo <= n <= hi && (n < hi ==> f[n] == NL)
    ensures forall k :: lo <= k < n ==> f[k] != NL
    decreases hi - lo
  {
    if lo == hi || f[lo] == NL then lo else NextBreak(f, lo + 1, hi)
  }

  /** The complete lines of f[lo..hi], in order. */
  function LinesIn(f: Bytes, lo: nat, hi: nat): seq<Line>
    requires lo <= hi <= |f|
    decreases hi - lo
  {
    var n := NextBreak(f, lo, hi);
    if n == hi then [] else [Line(lo, f[lo..n])] + LinesIn(f, n + 1, hi)
  }

  predicate Boundary(f: Bytes, o: nat) {
    o <= |f| && (o == 0 || f[o - 1] == NL)
  }

  /** `lastIndexOf("\n")` within f[lo..hi], as a position in f; lo - 1 when there is none. */
  function LastBreak(f: Bytes, lo: nat, hi: nat): (n: int)
    requires lo <= hi <= |f|
    ensures lo - 1 <= n < hi || n == lo - 1 == hi - 1
    ensures lo <= n ==> f[n] == NL
    ensures forall k :: n < k < hi && lo <= k ==> f[k] != NL
    decreases hi - lo
  {
    if lo == hi then lo - 1 else if f[hi - 1] == NL then hi - 1 else LastBreak(f, lo, hi - 1)
  }

  lemma {:induction false} LinesJoin(f: Bytes, lo: nat, mid: nat, hi: nat)
    requires lo <= mid <= hi <= |f| && (mid == lo || f[mid - 1] == NL)
    ensures LinesIn(f, lo, hi) == LinesIn(f, lo, mid) + LinesIn(f, mid, hi)
    decreases mid - lo
  {
    if lo < mid {
      var n := NextBreak(f, lo, mid);
      assert n < mid;
      assert NextBreak(f, lo, hi) == n;
      LinesJoin(f, n + 1, mid, hi);
    }
  }

  lemma {:induction false} LinesOfLongerFile(f: Bytes, g: Bytes, lo: nat, hi: nat)
    requires lo <= hi <= |f|
    ensures LinesIn(f + g, lo, hi) == LinesIn(f, lo, hi)
    decreases hi - lo
  {
    var n := NextBreak(f, lo, hi);
    var h := f + g;
    assert forall k :: 0 <= k < |f| ==> h[k] == f[k];
    assert NextBreak(h, lo, hi) == n;
    assert h[lo..n] == f[lo..n];
    if n < hi { LinesOfLongerFile(f, g, n + 1, hi); }
  }

  /** Every line lies inside its range, ends at a break and holds none. */
  lemma {:induction false} LineShape(f: Bytes, lo: nat, hi: nat, l: Line)
    requires lo <= hi <= |f| && l in LinesIn(f, lo, hi)
    ensures lo <= l.start && l.start + |l.text| < hi && l.text == f[l.start..l.start + |l.text|]
    ensures f[l.start + |l.text|] == NL && forall k :: l.start <= k < l.start + |l.text| ==> f[k] != NL
    decreases hi - lo
  {
    var n := NextBreak(f, lo, hi);
    if n < hi && l != Line(lo, f[lo..n]) { LineShape(f, n + 1, hi, l); }
  }

  /* ---------------------------------- one tick -------------------------------- */

  /** The lines the watcher hands on: not empty, and carrying a message it ingests. */
  function Kept(wanted: Bytes -> bool): Line -> seq<Line> {
    (l: Line) => if l.text != [] && wanted(l.text) then [l] else []
  }

  function Handed(f: Bytes, wanted: Bytes -> bool, lo: nat, hi: nat): seq<Line>
    requires lo <= hi <= |f|
  {
    FlatMap(Kept(wanted), LinesIn(f, lo, hi))
  }

  function ReadEnd(f: Bytes, start: nat, maxBytes: nat): nat {
    if |f| < start + maxBytes then |f| else start + maxBytes
  }

  /** The offset after the last complete line read. */
  function NewOffset(f: Bytes, start: nat, end: nat): nat
    requires start <= end <= |f|
  {
    LastBreak(f, start, end) + 1
  }

  lemma {:induction false} TickReadsUpToNewOffset(f: Bytes, start: nat, end: nat)
    requires start <= end <= |f|
    ensures var o := NewOffset(f, start, end);
            && start <= o <= end && (o == start || f[o - 1] == NL)
            && LinesIn(f, start, end) == LinesIn(f, start, o)
  {
    var o := NewOffset(f, start, end);
    LinesJoin(f, start, o, end);
    assert LinesIn(f, start, o) + [] == LinesIn(f, start, o);
  }

  function TextsOf(ls: seq<Line>): seq<Bytes> {
    seq(|ls|, i requires 0 <= i < |ls| => ls[i].text)
  }

  /** The pieces of f[lo..hi] under `split("\n")`. */
  function SplitLines(f: Bytes, lo: nat, hi: nat): seq<Bytes>
    requires lo <= hi <= |f|
    decreases hi - lo
  {
    var n := NextBreak(f, lo, hi);
    if n == hi then [f[lo..hi]] else [f[lo..n]] + SplitLines(f, n + 1, hi)
  }

  lemma {:induction false} BreakBefore(f: Bytes, lo: nat, last: nat)
    requires lo <= last < |f| && f[last] == NL
    ensures NextBreak(f, lo, last + 1) == NextBreak(f, lo, last)
  {
    var n, m := NextBreak(f, lo, last), NextBreak(f, lo, last + 1);
    assert f[n] == NL;
  }

  lemma {:induction false} TextsOfCons(l: Line, ls: seq<Line>)
    ensures TextsOf([l] + ls) == [l.text] + TextsOf(ls)
  {
  }

  lemma {:induction false} TextsOfAppend(a: seq<Line>, b: seq<Line>)
    ensures TextsOf(a + b) == TextsOf(a) + TextsOf(b)
  {
  }

  /** Splitting the complete portion yields the texts of the complete lines. */
  lemma {:induction false} SplitIsLines(f: Bytes, lo: nat, last: nat)
    requires lo <= last < |f| && f[last] == NL
    ensures SplitLines(f, lo, last) == TextsOf(LinesIn(f, lo, last + 1))
    decreases last - lo
  {
    var n := NextBreak(f, lo, last);
    var l, rest := Line(lo, f[lo..n]), LinesIn(f, n + 1, last + 1);
    assert LinesIn(f, lo, last + 1) == [l] + rest by { BreakBefore(f, lo, last); }
    TextsOfCons(l, rest);
    if n < last { SplitIsLines(f, n + 1, last); } else { assert rest == []; }
  }

  /** Where a first run starts in a file of this size. The probe counts characters, so that with
      multi-byte text the start need not be a line boundary. */
  function FirstStart(size: nat, backfill: nat, snap: Option<nat>): nat {
    if backfill == 0 then size
    else if size > backfill then size - backfill + (if snap.Some? then snap.value + 1 else 0)
    else 0
  }

  class Watcher {
    const maxBytesPerTick: nat
    const wanted: Bytes -> bool
    var storedOffset: nat
    var ingested: seq<Bytes>

    constructor (maxBytesPerTick: nat, wanted: Bytes -> bool, offset: nat)
      ensures this.maxBytesPerTick == maxBytesPerTick && this.wanted == wanted
      ensures storedOffset == offset && ingested == []
    {
      this.maxBytesPerTick, this.wanted, storedOffset, ingested := maxBytesPerTick, wanted, offset, [];
    }

    /** The loop of `processFile` over the complete lines. */
    method IngestLines(lines: seq<Bytes>, ghost complete: seq<Line>)
      requires lines == TextsOf(complete)
      modifies `ingested
      ensures ingested == old(ingested) + TextsOf(FlatMap(Kept(wanted), complete))
    {
      for n := 0 to |lines|
        invariant ingested == old(ingested) + TextsOf(FlatMap(Kept(wanted), complete[..n]))
      {
        FlatMapNext(Kept(wanted), complete, n);
        TextsOfAppend(FlatMap(Kept(wanted), complete[..n]), Kept(wanted)(complete[n]));
        var line := lines[n];
        if |line| == 0 { continue; }
        if !wanted(line) { continue; }
        ingested := ingested + [line];
      }
      assert complete[..|lines|] == complete;
    }

    /** `processFile`. With no stored offset yet it is a first run: backfill is the configured number
        of bytes to go back, snap what the probe for a line break reports. startOk and writeOk:
        whether storing the start of a first run, and the new offset, succeed. */
    method ProcessFile(file: Bytes, backfill: nat, snap: Option<nat>, startOk: bool, writeOk: bool) returns (bytes: nat)
      requires snap.Some? ==> snap.value < backfill
      modifies this
      ensures var start := if old(storedOffset) == 0 then FirstStart(|file|, backfill, snap) else old(storedOffset);
              var kept := if startOk then start else old(storedOffset);
              var end := ReadEnd(file, start, maxBytesPerTick);
              if |file| <= start then
                storedOffset == kept && ingested == old(ingested) && bytes == 0
              else
                && ingested == old(ingested) + TextsOf(Handed(file, wanted, start, end))
                && storedOffset == (if writeOk && NewOffset(file, start, end) > start then NewOffset(file, start, end) else kept)
                && bytes == (if NewOffset(file, start, end) == start then 0 else end - start)
    {
      var prevOffset := storedOffset;
      if storedOffset == 0 {
        prevOffset := FirstStart(|file|, backfill, snap);
        if startOk { storedOffset := prevOffset; }
      }
      if |file| <= prevOffset { return 0; }
      bytes := ReadTail(file, prevOffset, writeOk);
    }

    method ReadTail(file: Bytes, prevOffset: nat, writeOk: bool) returns (bytes: nat)
      requires prevOffset < |file|
      modifies this
      ensures var end := ReadEnd(file, prevOffset, maxBytesPerTick);
              var o := NewOffset(file, prevOffset, end);
              && ingested == old(ingested) + TextsOf(Handed(file, wanted, prevOffset, end))
              && storedOffset == (if writeOk && o > prevOffset then o else old(storedOffset))
              && bytes == (if o == prevOffset then 0 else end - prevOffset)
    {
      var end := ReadEnd(file, prevOffset, maxBytesPerTick);
      TickReadsUpToNewOffset(file, prevOffset, end);
      var lastNl := LastBreak(file, prevOffset, end);
      if lastNl < prevOffset {
        return 0;
      }
      bytes := end - prevOffset;
      SplitIsLines(file, prevOffset, lastNl);
      IngestLines(SplitLines(file, prevOffset, lastNl), LinesIn(file, prevOffset, lastNl + 1));
      if writeOk { storedOffset := lastNl + 1; }
    }
  }

  /* --------------------------- ticks in any interleaving ---------------------- */

  /** A tick at work: it has read the stored offset, or also the size of the file, which fixes how far
      it reads. */
  datatype Tick = Opened(start: nat) | Reading(start: nat, end: nat)

  /** file only grows; log is every line handed on, in order; unstored counts those handed on by ticks
      that did not get to store their offset. */
  datatype Watch = Watch(file: Bytes, stored: nat, inflight: map<nat, Tick>, log: seq<Line>, unstored: nat)

  datatype Event =
    | Append(bytes: Bytes)
    | Begin(tick: nat)
    | Stat(tick: nat)
    | Finish(tick: nat, writeOk: bool)
    | Crash(tick: nat, handed: nat)

  datatype Config = Config(maxBytes: nat, wanted: Bytes -> bool)

  ghost predicate Enabled(c: Config, w: Watch, e: Event) {
    match e
    case Append(_) => true
    case Begin(t) => t !in w.inflight
    case Stat(t) => t in w.inflight && w.inflight[t].Opened?
    case Finish(t, _) => t in w.inflight && w.inflight[t].Reading?
    case Crash(t, n) => t in w.inflight && n <= |InFlightLines(c, w, t)|
  }

  /** What a tick hands on if it is not stopped. The file only grows, so the bytes up to the end are
      the same whenever they are read. */
  ghost function InFlightLines(c: Config, w: Watch, t: nat): seq<Line>
    requires t in w.inflight
  {
    var k := w.inflight[t];
    if k.Reading? && k.start <= k.end <= |w.file| then Handed(w.file, c.wanted, k.start, k.end) else []
  }

  ghost function Step(c: Config, w: Watch, e: Event): Watch
    requires Enabled(c, w, e)
  {
    match e
    case Append(bytes) => w.(file := w.file + bytes)
    case Begin(t) => w.(inflight := w.inflight[t := Opened(w.stored)])
    case Stat(t) =>
      var lo := w.inflight[t].start;
      if |w.file| <= lo then w.(inflight := w.inflight - {t})
      else w.(inflight := w.inflight[t := Reading(lo, ReadEnd(w.file, lo, c.maxBytes))])
    case Finish(t, writeOk) =>
      var Reading(lo, hi) := w.inflight[t];
      var handed := InFlightLines(c, w, t);
      var w' := w.(inflight := w.inflight - {t}, log := w.log + handed);
      if writeOk && lo <= hi <= |w.file| && NewOffset(w.file, lo, hi) > lo
      then w'.(stored := NewOffset(w.file, lo, hi))
      else w'.(unstored := w.unstored + |handed|)
    case Crash(t, n) =>
      w.(inflight := w.inflight - {t}, log := w.log + InFlightLines(c, w, t)[..n], unstored := w.unstored + n)
  }

  ghost predicate StepAt(c: Config, run: seq<Watch>, es: seq<Event>, i: nat)
    requires |run| == |es| + 1 && i < |es|
  {
    Enabled(c, run[i], es[i]) && run[i + 1] == Step(c, run[i], es[i])
  }

  /** A run from a positive offset stored at a line boundary. */
  ghost predicate Run(c: Config, run: seq<Watch>, es: seq<Event>) {
    && |run| == |es| + 1 && run[0].inflight == map[] && run[0].log == [] && run[0].unstored == 0
    && 0 < run[0].stored && Boundary(run[0].file, run[0].stored)
    && forall i :: 0 <= i < |es| ==> StepAt(c, run, es, i)
  }

  /** A tick that begins and finishes undisturbed does what `ProcessFile` does. */
  lemma {:induction false} TickIsProcessFile(c: Config, w: Watch, t: nat, writeOk: bool)
    requires t !in w.inflight && w.stored < |w.file|
    ensures var began := Step(c, w, Begin(t));
            var read := Step(c, began, Stat(t));
            var end := ReadEnd(w.file, w.stored, c.maxBytes);
            && Enabled(c, read, Finish(t, writeOk))
            && var after := Step(c, read, Finish(t, writeOk));
               && after.stored == (if writeOk then NewOffset(w.file, w.stored, end) else w.stored)
               && after.file == w.file && after.inflight == w.inflight
               && w.log <= after.log
               && after.log[|w.log|..] == Handed(w.file, c.wanted, w.stored, end)
  {
    var end := ReadEnd(w.file, w.stored, c.maxBytes);
    var handed := Handed(w.file, c.wanted, w.stored, end);
    TickReadsUpToNewOffset(w.file, w.stored, end);
    assert (w.log + handed)[|w.log|..] == handed;
    assert w.inflight[t := Opened(w.stored)][t := Reading(w.stored, end)] - {t} == w.inflight;
  }

  /** o is a boundary past the origin, and every wanted line before it has been handed on. */
  ghost predicate Covered(c: Config, w: Watch, origin: nat, o: nat) {
    && origin <= o && Boundary(w.file, o)
    && forall l <- Handed(w.file, c.wanted, origin, o) :: l in w.log
  }

  /** What a tick reads lies within the file. */
  ghost predicate Sound(w: Watch, k: Tick) {
    k.Reading? ==> k.start <= k.end <= |w.file|
  }

  ghost predicate AtLeastOnce(c: Config, w: Watch, origin: nat) {
    && Covered(c, w, origin, w.stored)
    && (forall t <- w.inflight :: Sound(w, w.inflight[t]) && Covered(c, w, origin, w.inflight[t].start))
    && forall l <- w.log :: l in Handed(w.file, c.wanted, origin, |w.file|)
  }

  lemma {:induction false} HandedJoin(f: Bytes, wanted: Bytes -> bool, lo: nat, mid: nat, hi: nat)
    requires lo <= mid <= hi <= |f| && (mid == lo || f[mid - 1] == NL)
    ensures Handed(f, wanted, lo, hi) == Handed(f, wanted, lo, mid) + Handed(f, wanted, mid, hi)
  {
    LinesJoin(f, lo, mid, hi);
    FlatMapAppend(Kept(wanted), LinesIn(f, lo, mid), LinesIn(f, mid, hi));
  }

  lemma {:induction false} AppendKeepsCovered(c: Config, w: Watch, origin: nat, o: nat, more: Bytes)
    requires Covered(c, w, origin, o)
    ensures Covered(c, w.(file := w.file + more), origin, o)
  {
    LinesOfLongerFile(w.file, more, origin, o);
  }

  lemma {:induction false} AppendKeepsAtLeastOnce(c: Config, w: Watch, origin: nat, more: Bytes)
    requires AtLeastOnce(c, w, origin)
    ensures AtLeastOnce(c, w.(file := w.file + more), origin)
  {
    var w' := w.(file := w.file + more);
    AppendKeepsCovered(c, w, origin, w.stored, more);
    forall t <- w.inflight ensures Covered(c, w', origin, w.inflight[t].start) {
      AppendKeepsCovered(c, w, origin, w.inflight[t].start, more);
    }
    // lines of the shorter file stay lines of the longer one
    var e := NewOffset(w.file, origin, |w.file|);
    TickReadsUpToNewOffset(w.file, origin, |w.file|);
    LinesOfLongerFile(w.file, more, origin, e);
    HandedJoin(w'.file, c.wanted, origin, e, |w'.file|);
  }

  /** What a tick hands on, up to its new offset, completes coverage of that offset. */
  lemma {:induction false} TickCovers(c: Config, w: Watch, origin: nat, lo: nat, hi: nat)
    requires origin <= lo <= hi <= |w.file| && Boundary(w.file, lo) && origin > 0
    ensures var o := NewOffset(w.file, lo, hi);
            && Boundary(w.file, o) && lo <= o
            && Handed(w.file, c.wanted, origin, o)
               == Handed(w.file, c.wanted, origin, lo) + Handed(w.file, c.wanted, lo, hi)
    ensures forall l <- Handed(w.file, c.wanted, lo, hi) :: l in Handed(w.file, c.wanted, origin, |w.file|)
  {
    var o := NewOffset(w.file, lo, hi);
    TickReadsUpToNewOffset(w.file, lo, hi);
    HandedJoin(w.file, c.wanted, origin, lo, o);
    HandedJoin(w.file, c.wanted, origin, o, |w.file|);
  }

  lemma {:induction false} StepKeepsAtLeastOnce(c: Config, w: Watch, origin: nat, e: Event)
    requires AtLeastOnce(c, w, origin) && Enabled(c, w, e) && origin > 0
    ensures AtLeastOnce(c, Step(c, w, e), origin)
  {
    match e
    case Append(bytes) => AppendKeepsAtLeastOnce(c, w, origin, bytes);
    case Begin(_) =>
    case Stat(_) =>
    case Finish(t, _) => TickCovers(c, w, origin, w.inflight[t].start, w.inflight[t].end);
    case Crash(t, _) =>
      if w.inflight[t].Reading? { TickCovers(c, w, origin, w.inflight[t].start, w.inflight[t].end); }
  }

  /** In every interleaving, with crashes and failed offset writes, every wanted line before the
      stored offset has been handed on, and nothing but complete lines ever is. */
  lemma {:induction false} NoLineIsSkipped(c: Config, run: seq<Watch>, es: seq<Event>, k: nat)
    requires Run(c, run, es) && k < |run|
    ensures AtLeastOnce(c, run[k], run[0].stored)
    decreases k
  {
    if k == 0 {
      assert LinesIn(run[0].file, run[0].stored, run[0].stored) == [];
    } else {
      NoLineIsSkipped(c, run, es, k - 1);
      assert StepAt(c, run, es, k - 1);
      StepKeepsAtLeastOnce(c, run[k - 1], run[0].stored, es[k - 1]);
    }
  }

  /* ------------------------------- serial ticks ------------------------------- */

  /** Ticks do not overlap: one begins only when none is in flight. */
  ghost predicate SerialStep(w: Watch, e: Event) {
    e.Begin? ==> w.inflight == map[]
  }

  ghost predicate Serial(run: seq<Watch>, es: seq<Event>)
    requires |run| == |es| + 1
  {
    forall i :: 0 <= i < |es| ==> SerialStep(run[i], es[i])
  }

  /** The one tick in flight, if any, started at the stored offset; the log splits into the lines
      below that offset and those whose tick failed to store it. */
  ghost predicate SerialInv(c: Config, w: Watch, origin: nat) {
    && 0 < origin <= w.stored && Boundary(w.file, w.stored)
    && (forall t <- w.inflight :: w.inflight[t].start == w.stored && Sound(w, w.inflight[t]))
    && (forall t <- w.inflight, u <- w.inflight :: t == u)
    && |w.log| == |Handed(w.file, c.wanted, origin, w.stored)| + w.unstored
    && (w.unstored == 0 ==> w.log == Handed(w.file, c.wanted, origin, w.stored))
  }

  lemma {:induction false} SerialStepKeeps(c: Config, w: Watch, origin: nat, e: Event)
    requires SerialInv(c, w, origin) && Enabled(c, w, e) && SerialStep(w, e)
    ensures SerialInv(c, Step(c, w, e), origin) && w.stored <= Step(c, w, e).stored
  {
    match e
    case Append(bytes) => LinesOfLongerFile(w.file, bytes, origin, w.stored);
    case Begin(_) =>
    case Stat(_) =>
    case Finish(t, _) => TickCovers(c, w, origin, w.inflight[t].start, w.inflight[t].end);
    case Crash(_, _) =>
  }

  lemma {:induction false} SerialRunKeeps(c: Config, run: seq<Watch>, es: seq<Event>, k: nat)
    requires Run(c, run, es) && Serial(run, es) && k < |run|
    ensures SerialInv(c, run[k], run[0].stored)
    ensures k > 0 ==> run[k - 1].stored <= run[k].stored
    decreases k
  {
    if k == 0 {
      assert LinesIn(run[0].file, run[0].stored, run[0].stored) == [];
    } else {
      SerialRunKeeps(c, run, es, k - 1);
      assert StepAt(c, run, es, k - 1) && SerialStep(run[k - 1], es[k - 1]);
      SerialStepKeeps(c, run[k - 1], run[0].stored, es[k - 1]);
    }
  }

  /** With ticks that do not overlap, the offset never moves back, and what was handed on is
      exactly the wanted lines below it, each once and in order, if and only if no tick that
      handed on a line failed to store its offset. */
  lemma {:induction false} SerialTicksDeliverOnceIff(c: Config, run: seq<Watch>, es: seq<Event>, k: nat)
    requires Run(c, run, es) && Serial(run, es) && k < |run|
    ensures run[0].stored <= run[k].stored <= |run[k].file|
    ensures run[k].log == Handed(run[k].file, c.wanted, run[0].stored, run[k].stored) <==> run[k].unstored == 0
    ensures k > 0 ==> run[k - 1].stored <= run[k].stored
  {
    SerialRunKeeps(c, run, es, k);
  }

  /** Handed-on lines of a range start at increasing positions, so none is there twice. */
  lemma {:induction false} HandedIncreases(f: Bytes, wanted: Bytes -> bool, lo: nat, hi: nat)
    requires lo <= hi <= |f|
    ensures var ls := Handed(f, wanted, lo, hi);
            && (forall l <- ls :: lo <= l.start)
            && forall i, j :: 0 <= i < j < |ls| ==> ls[i].start < ls[j].start
    decreases hi - lo
  {
    var n := NextBreak(f, lo, hi);
    if n < hi { HandedIncreases(f, wanted, n + 1, hi); }
  }

  /* ----------------------------- overlapping ticks ---------------------------- */

  /** What was handed on is exactly the wanted lines below the stored offset. */
  ghost predicate ExactlyOnce(c: Config, w: Watch, origin: nat) {
    origin <= w.stored <= |w.file| && w.log == Handed(w.file, c.wanted, origin, w.stored)
  }

  /** The wanted lines between two offsets, whichever comes first. */
  ghost function Between(c: Config, f: Bytes, a: nat, b: nat): seq<Line>
    requires a <= |f| && b <= |f|
  {
    if a <= b then Handed(f, c.wanted, a, b) else Handed(f, c.wanted, b, a)
  }

  /** A step that delivers exactly once goes on to: a tick that stores an offset does so if nothing is
      wanted between where it started and what is stored by now; one that does not store, or
      crashes, if it hands on nothing. */
  ghost predicate Harmless(c: Config, w: Watch, e: Event)
    requires Enabled(c, w, e)
  {
    match e
    case Finish(t, writeOk) =>
      var Reading(lo, hi) := w.inflight[t];
      if writeOk && lo <= hi <= |w.file| && w.stored <= |w.file| && NewOffset(w.file, lo, hi) > lo
      then Between(c, w.file, lo, w.stored) == []
      else InFlightLines(c, w, t) == []
    case Crash(_, n) => n == 0
    case _ => true
  }

  lemma {:induction false} FinishDeliversOnceIff(c: Config, w: Watch, origin: nat, t: nat, writeOk: bool)
    requires AtLeastOnce(c, w, origin) && ExactlyOnce(c, w, origin) && Enabled(c, w, Finish(t, writeOk)) && origin > 0
    ensures ExactlyOnce(c, Step(c, w, Finish(t, writeOk)), origin) <==> Harmless(c, w, Finish(t, writeOk))
  {
    var Reading(lo, hi) := w.inflight[t];
    TickCovers(c, w, origin, lo, hi);
    if writeOk && NewOffset(w.file, lo, hi) > lo {
      GapIff(c, w, origin, lo, Handed(w.file, c.wanted, lo, hi));
    }
  }

  /** Lines from lo on extend what is below the stored offset exactly when nothing lies between. */
  lemma {:induction false} GapIff(c: Config, w: Watch, origin: nat, lo: nat, handed: seq<Line>)
    requires ExactlyOnce(c, w, origin) && origin <= lo <= |w.file| && Boundary(w.file, lo) && Boundary(w.file, w.stored)
    requires origin > 0
    ensures w.log + handed == Handed(w.file, c.wanted, origin, lo) + handed <==> Between(c, w.file, lo, w.stored) == []
  {
    var f, s := w.file, w.stored;
    if lo <= s {
      HandedJoin(f, c.wanted, origin, lo, s);
      InsertedIff(Handed(f, c.wanted, origin, lo), Between(c, f, lo, s), handed);
    } else {
      HandedJoin(f, c.wanted, origin, s, lo);
      InsertedIff(w.log, Between(c, f, lo, s), handed);
    }
  }

  lemma {:induction false} InsertedIff<T>(a: seq<T>, b: seq<T>, d: seq<T>)
    ensures a + b + d == a + d <==> b == []
  {
    if b == [] { assert a + b == a; }
  }

  /** From any reachable state that delivered exactly once, a step keeps it so if and only if it is
      harmless, however many ticks overlap. */
  lemma {:induction false} StepDeliversOnceIff(c: Config, w: Watch, origin: nat, e: Event)
    requires AtLeastOnce(c, w, origin) && ExactlyOnce(c, w, origin) && Enabled(c, w, e) && origin > 0
    ensures ExactlyOnce(c, Step(c, w, e), origin) <==> Harmless(c, w, e)
  {
    match e
    case Append(bytes) => LinesOfLongerFile(w.file, bytes, origin, w.stored);
    case Begin(_) =>
    case Stat(_) =>
    case Finish(t, writeOk) => FinishDeliversOnceIff(c, w, origin, t, writeOk);
    case Crash(t, n) => assert |w.log + InFlightLines(c, w, t)[..n]| == |w.log| + n;
  }

  ghost predicate HarmlessAt(c: Config, run: seq<Watch>, es: seq<Event>, i: nat)
    requires |run| == |es| + 1 && i < |es|
  {
    Enabled(c, run[i], es[i]) && Harmless(c, run[i], es[i])
  }

  /** What was handed on is the wanted lines below the offset, each once and in order, in every state
      up to the k-th, if and only if every step up to there was harmless. */
  lemma {:induction false} RunDeliversOnceIff(c: Config, run: seq<Watch>, es: seq<Event>, k: nat)
    requires Run(c, run, es) && k < |run|
    ensures (forall i :: 0 <= i <= k ==> ExactlyOnce(c, run[i], run[0].stored))
       <==> forall i :: 0 <= i < k ==> HarmlessAt(c, run, es, i)
    decreases k
  {
    if k == 0 {
      assert LinesIn(run[0].file, run[0].stored, run[0].stored) == [];
    } else {
      RunDeliversOnceIff(c, run, es, k - 1);
      NoLineIsSkipped(c, run, es, k - 1);
      assert StepAt(c, run, es, k - 1);
      if ExactlyOnce(c, run[k - 1], run[0].stored) {
        StepDeliversOnceIff(c, run[k - 1], run[0].stored, es[k - 1]);
        assert ExactlyOnce(c, run[k], run[0].stored) <==> HarmlessAt(c, run, es, k - 1);
      }
    }
  }

  /** Two ticks t and u begin one after the other, the file growing in between. */
  ghost predicate Overlaps(c: Config, w: Watch, origin: nat, t: nat, u: nat) {
    && AtLeastOnce(c, w, origin) && ExactlyOnce(c, w, origin) && origin > 0
    && w.inflight == map[] && t != u && w.stored < |w.file|
  }

  ghost function Begun(c: Config, w: Watch, t: nat): Watch
    requires t !in w.inflight
  {
    Step(c, Step(c, w, Begin(t)), Stat(t))
  }

  ghost function Overlapped(c: Config, w: Watch, t: nat, more: Bytes, u: nat): Watch
    requires w.inflight == map[] && t != u
  {
    Begun(c, Step(c, Begun(c, w, t), Append(more)), u)
  }

  lemma {:induction false} OverlappedIs(c: Config, w: Watch, t: nat, more: Bytes, u: nat)
    requires w.inflight == map[] && t != u && w.stored < |w.file|
    ensures var lo, f := w.stored, w.file + more;
            Overlapped(c, w, t, more, u) == w.(file := f, inflight :=
              map[t := Reading(lo, ReadEnd(w.file, lo, c.maxBytes)), u := Reading(lo, ReadEnd(f, lo, c.maxBytes))])
  {
    var lo, f := w.stored, w.file + more;
    var kT, kU := Reading(lo, ReadEnd(w.file, lo, c.maxBytes)), Reading(lo, ReadEnd(f, lo, c.maxBytes));
    var w1 := w.(file := f, inflight := map[t := kT]);
    assert map[][t := Opened(lo)][t := kT] == map[t := kT];
    assert Step(c, Begun(c, w, t), Append(more)) == w1;
    assert map[t := kT][u := Opened(lo)][u := kU] == map[t := kT, u := kU];
    assert Begun(c, w1, u) == w1.(inflight := map[t := kT, u := kU]);
  }

  /** What each of the two ticks read, in the grown file. */
  lemma {:induction false} OverlappedReads(c: Config, w: Watch, origin: nat, t: nat, more: Bytes, u: nat)
    requires Overlaps(c, w, origin, t, u)
    ensures var lo, f := w.stored, w.file + more;
            var hiT, hiU := ReadEnd(w.file, lo, c.maxBytes), ReadEnd(f, lo, c.maxBytes);
            var w3 := Overlapped(c, w, t, more, u);
            && w3 == w.(file := f, inflight := map[t := Reading(lo, hiT), u := Reading(lo, hiU)])
            && AtLeastOnce(c, w3, origin) && ExactlyOnce(c, w3, origin)
            && lo <= hiT <= hiU <= |f|
            && Handed(f, c.wanted, lo, hiT) == Handed(w.file, c.wanted, lo, hiT)
            && NewOffset(f, lo, hiT) == NewOffset(w.file, lo, hiT) <= NewOffset(f, lo, hiU)
  {
    var lo := w.stored;
    var hiT := ReadEnd(w.file, lo, c.maxBytes);
    OverlappedIs(c, w, t, more, u);
    LinesOfLongerFile(w.file, more, lo, hiT);
    LinesOfLongerFile(w.file, more, origin, lo);
    LastBreakOfLongerFile(w.file, more, lo, hiT);
    AppendKeepsAtLeastOnce(c, w, origin, more);
  }

  lemma {:induction false} LastBreakOfLongerFile(f: Bytes, g: Bytes, lo: nat, hi: nat)
    requires lo <= hi <= |f|
    ensures LastBreak(f + g, lo, hi) == LastBreak(f, lo, hi)
    decreases hi - lo
  {
    if lo < hi { LastBreakOfLongerFile(f, g, lo, hi - 1); }
  }

  /** A finishing tick, with its offset stored, in terms of what it read. */
  lemma {:induction false} Finished(c: Config, w: Watch, t: nat)
    requires t in w.inflight && w.inflight[t].Reading? && Sound(w, w.inflight[t])
    ensures var Reading(lo, hi) := w.inflight[t];
            var o, w' := NewOffset(w.file, lo, hi), Step(c, w, Finish(t, true));
            && w'.file == w.file && w'.inflight == w.inflight - {t}
            && w'.log == w.log + Handed(w.file, c.wanted, lo, hi)
            && w'.stored == (if o > lo then o else w.stored)
  {
  }

  /** The tick that began first finishes first: the offset does not move back, and delivery is exactly
      once if and only if that tick hands on nothing. */
  lemma {:induction false} OverlapInOrderIff(c: Config, w: Watch, origin: nat, t: nat, more: Bytes, u: nat)
    requires Overlaps(c, w, origin, t, u)
    ensures var w3 := Overlapped(c, w, t, more, u);
            && Enabled(c, w3, Finish(t, true)) && Enabled(c, Step(c, w3, Finish(t, true)), Finish(u, true))
            && var w4 := Step(c, w3, Finish(t, true));
               var w5 := Step(c, w4, Finish(u, true));
               && w.stored <= w4.stored <= w5.stored
               && (ExactlyOnce(c, w5, origin)
                   <==> Handed(w.file, c.wanted, w.stored, ReadEnd(w.file, w.stored, c.maxBytes)) == [])
  {
    OverlappedReads(c, w, origin, t, more, u);
    var w3 := Overlapped(c, w, t, more, u);
    TwoFinish(c, w3, origin, t, u);
  }

  /** Two ticks that read from the stored offset finish, t first. */
  lemma {:induction false} TwoFinish(c: Config, w: Watch, origin: nat, t: nat, u: nat)
    requires AtLeastOnce(c, w, origin) && ExactlyOnce(c, w, origin) && origin > 0
    requires t in w.inflight && u in w.inflight && t != u && w.inflight[t].Reading? && w.inflight[u].Reading?
    requires w.inflight[t].start == w.stored == w.inflight[u].start
    ensures var w1 := Step(c, w, Finish(t, true));
            var w2 := Step(c, w1, Finish(u, true));
            var oT, oU := NewOffset(w.file, w.stored, w.inflight[t].end), NewOffset(w.file, w.stored, w.inflight[u].end);
            && w1.stored == oT && w2.stored == (if oU > w.stored then oU else oT)
            && (ExactlyOnce(c, w2, origin) <==> oU == w.stored || InFlightLines(c, w, t) == [])
  {
    var lo, f := w.stored, w.file;
    var w1 := Step(c, w, Finish(t, true));
    TickReadsUpToNewOffset(f, lo, w.inflight[t].end);
    TickReadsUpToNewOffset(f, lo, w.inflight[u].end);
    assert LinesIn(f, lo, lo) == [];
    FinishDeliversOnceIff(c, w, origin, t, true);
    StepKeepsAtLeastOnce(c, w, origin, Finish(t, true));
    FinishDeliversOnceIff(c, w1, origin, u, true);
  }

  /** The tick that began last finishes first: the offset moves back exactly when the other tick read
      a line break and this one a later one, and delivery is exactly once if and only if the other
      tick read no line break or this one hands on nothing. */
  lemma {:induction false} OverlapReversedIff(c: Config, w: Watch, origin: nat, t: nat, more: Bytes, u: nat)
    requires Overlaps(c, w, origin, t, u)
    ensures var w3, lo, f := Overlapped(c, w, t, more, u), w.stored, w.file + more;
            var oT := NewOffset(w.file, lo, ReadEnd(w.file, lo, c.maxBytes));
            var endU := ReadEnd(f, lo, c.maxBytes);
            && Enabled(c, w3, Finish(u, true)) && Enabled(c, Step(c, w3, Finish(u, true)), Finish(t, true))
            && var w4 := Step(c, w3, Finish(u, true));
               var w5 := Step(c, w4, Finish(t, true));
               && (w5.stored < w4.stored <==> lo < oT < NewOffset(f, lo, endU))
               && (ExactlyOnce(c, w5, origin) <==> oT == lo || Handed(f, c.wanted, lo, endU) == [])
  {
    OverlappedReads(c, w, origin, t, more, u);
    var w3 := Overlapped(c, w, t, more, u);
    TwoFinish(c, w3, origin, u, t);
  }

  /** So overlapping ticks are not a no-op: here two hand the same line on twice. The second reads the
      offset before the first stores it, and the size of the file after. */
  lemma {:induction false} OverlapRedelivers(c: Config) returns (run: seq<Watch>, es: seq<Event>)
    requires c.maxBytes >= 2 && c.wanted([97])
    ensures Run(c, run, es) && |es| == 6 && |run[6].log| == 2 && run[6].log[0] == run[6].log[1]
    ensures es[3] == Finish(0, true) && es[4] == Stat(1) && es[5] == Finish(1, true)
  {
    var f: Bytes, l := [NL, 97, NL], Line(1, [97]);
    OneLine(c, f, l);
    run, es := LateStatRun(c, Watch(f, 1, map[], [], 0), 0, 1);
  }

  /** The same lines twice, whatever the file holds past the offset. */
  lemma {:induction false} LateStatRun(c: Config, w: Watch, t: nat, u: nat) returns (run: seq<Watch>, es: seq<Event>)
    requires Run(c, [w], []) && t != u && w.stored < |w.file|
    ensures Run(c, run, es) && es == [Begin(t), Begin(u), Stat(t), Finish(t, true), Stat(u), Finish(u, true)]
    ensures var handed := Handed(w.file, c.wanted, w.stored, ReadEnd(w.file, w.stored, c.maxBytes));
            run[6].log == handed + handed
  {
    var lo, hi := w.stored, ReadEnd(w.file, w.stored, c.maxBytes);
    run, es := LateStatBegins(c, w, t, u);
    Finished(c, run[3], t);
    run, es := RunSnoc(c, run, es, Finish(t, true));
    assert run[4].inflight == map[u := Opened(lo)] && run[4].file == w.file;
    run, es := RunSnoc(c, run, es, Stat(u));
    assert run[5].inflight == map[u := Reading(lo, hi)] && run[5].log == run[4].log;
    Finished(c, run[5], u);
    run, es := RunSnoc(c, run, es, Finish(u, true));
  }

  lemma {:induction false} LateStatBegins(c: Config, w: Watch, t: nat, u: nat) returns (run: seq<Watch>, es: seq<Event>)
    requires Run(c, [w], []) && t != u && w.stored < |w.file|
    ensures Run(c, run, es) && es == [Begin(t), Begin(u), Stat(t)]
    ensures run[3] == w.(inflight := map[t := Reading(w.stored, ReadEnd(w.file, w.stored, c.maxBytes)), u := Opened(w.stored)])
  {
    var lo, hi := w.stored, ReadEnd(w.file, w.stored, c.maxBytes);
    run, es := [w], [];
    run, es := RunSnoc(c, run, es, Begin(t));
    run, es := RunSnoc(c, run, es, Begin(u));
    run, es := RunSnoc(c, run, es, Stat(t));
    assert map[t := Opened(lo)][u := Opened(lo)][t := Reading(lo, hi)] == map[t := Reading(lo, hi), u := Opened(lo)];
  }

  /** And here a tick that began before the file grew moves the stored offset back. */
  lemma {:induction false} OverlapMovesBack(c: Config) returns (run: seq<Watch>, es: seq<Event>)
    requires c.maxBytes >= 3 && c.wanted([97])
    ensures Run(c, run, es) && |es| == 7 && run[7].stored < run[6].stored
  {
    var f: Bytes, g: Bytes, l := [NL, 97, NL], [NL, 97, NL, NL], Line(1, [97]);
    assert f + [NL] == g;
    OneLine(c, f, l);
    OneLine(c, g, l);
    var w := Watch(f, 1, map[], [], 0);
    assert LinesIn(f, 1, 1) == [] && Overlaps(c, w, 1, 0, 1);
    OverlapReversedIff(c, w, 1, 0, [NL], 1);
    run, es := OverlapRun(c, w, 0, [NL], 1);
  }

  /** Two ticks that overlap from the start of a run, the second finishing first. */
  lemma {:induction false} OverlapRun(c: Config, w: Watch, t: nat, more: Bytes, u: nat) returns (run: seq<Watch>, es: seq<Event>)
    requires Run(c, [w], []) && t != u && w.stored < |w.file|
    ensures Run(c, run, es) && |es| == 7 && run[5] == Overlapped(c, w, t, more, u)
    ensures Enabled(c, run[5], Finish(u, true)) && run[6] == Step(c, run[5], Finish(u, true))
    ensures Enabled(c, run[6], Finish(t, true)) && run[7] == Step(c, run[6], Finish(t, true))
  {
    run, es := [w], [];
    run, es := RunSnoc(c, run, es, Begin(t));
    run, es := RunSnoc(c, run, es, Stat(t));
    run, es := RunSnoc(c, run, es, Append(more));
    run, es := RunSnoc(c, run, es, Begin(u));
    run, es := RunSnoc(c, run, es, Stat(u));
    OverlappedIs(c, w, t, more, u);
    run, es := RunSnoc(c, run, es, Finish(u, true));
    run, es := RunSnoc(c, run, es, Finish(t, true));
  }

  lemma {:induction false} RunSnoc(c: Config, run: seq<Watch>, es: seq<Event>, e: Event) returns (run': seq<Watch>, es': seq<Event>)
    requires Run(c, run, es) && Enabled(c, run[|es|], e)
    ensures run' == run + [Step(c, run[|es|], e)] && es' == es + [e] && Run(c, run', es')
  {
    run', es' := run + [Step(c, run[|es|], e)], es + [e];
    forall i | 0 <= i < |es'| ensures StepAt(c, run', es', i) {
      if i < |es| { assert StepAt(c, run, es, i); }
    }
  }

  lemma {:induction false} OneLine(c: Config, f: Bytes, l: Line)
    requires c.wanted([97]) && l == Line(1, [97])
    requires |f| >= 3 && f[..3] == [NL, 97, NL] && forall k :: 3 <= k < |f| ==> f[k] == NL
    ensures Handed(f, c.wanted, 1, 3) == [l] && NewOffset(f, 1, 3) == 3 && NewOffset(f, 1, |f|) == |f|
  {
    assert f[..3][0] == f[0] && f[..3][1] == f[1] && f[..3][2] == f[2];
    assert NextBreak(f, 1, 3) == 2 && f[1..2] == [97];
    assert LinesIn(f, 3, 3) == [] && LinesIn(f, 1, 3) == [l];
    FlatMapSnoc(Kept(c.wanted), [], l);
    assert [] + [l] == [l];
  }

  /* --------------------------------- progress --------------------------------- */

  /** Where one undisturbed tick leaves the offset. */
  function TickOffset(f: Bytes, o: nat, maxBytes: nat): nat
    requires o <= |f|
  {
    NewOffset(f, o, ReadEnd(f, o, maxBytes))
  }

  function Ticks(f: Bytes, o: nat, maxBytes: nat, n: nat): (r: nat)
    requires o <= |f|
    ensures r <= |f|
    decreases n
  {
    if n == 0 then o else Ticks(f, TickOffset(f, o, maxBytes), maxBytes, n - 1)
  }

  /** The offset after the last complete line of the file. */
  function PendingEnd(f: Bytes, o: nat): nat
    requires o <= |f|
  {
    NewOffset(f, o, |f|)
  }

  /** A tick moves on exactly when the next pending line, with its break, fits in one read, and
      then the distance to the last complete line falls. */
  lemma {:induction false} TickAdvancesIff(f: Bytes, o: nat, maxBytes: nat)
    requires o <= |f|
    ensures var o', pending := TickOffset(f, o, maxBytes), LinesIn(f, o, |f|);
            && o <= o' <= PendingEnd(f, o) && PendingEnd(f, o') == PendingEnd(f, o)
            && (o < o' <==> pending != [] && |pending[0].text| < maxBytes)
            && pending == LinesIn(f, o, o') + LinesIn(f, o', |f|)
  {
    var end := ReadEnd(f, o, maxBytes);
    var o' := TickOffset(f, o, maxBytes);
    TickReadsUpToNewOffset(f, o, end);
    TickReadsUpToNewOffset(f, o, |f|);
    LinesJoin(f, o, o', |f|);
    var n := NextBreak(f, o, |f|);
    assert o < o' <==> n < end;
  }

  lemma {:induction false} LongLineNotRead(f: Bytes, o: nat, maxBytes: nat, l: Line)
    requires o <= |f| && maxBytes <= |l.text|
    ensures TickOffset(f, o, maxBytes) >= o && l !in LinesIn(f, o, TickOffset(f, o, maxBytes))
  {
    TickReadsUpToNewOffset(f, o, ReadEnd(f, o, maxBytes));
    if l in LinesIn(f, o, TickOffset(f, o, maxBytes)) {
      LineShape(f, o, TickOffset(f, o, maxBytes), l);
      assert false;
    }
  }

  lemma {:induction false} LongLineBlocks(f: Bytes, o: nat, maxBytes: nat, l: Line, n: nat)
    requires o <= |f| && l in LinesIn(f, o, |f|) && maxBytes <= |l.text|
    ensures Ticks(f, o, maxBytes, n) <= l.start
    decreases n
  {
    if n == 0 {
      LineShape(f, o, |f|, l);
    } else {
      var o' := TickOffset(f, o, maxBytes);
      TickAdvancesIff(f, o, maxBytes);
      LongLineNotRead(f, o, maxBytes, l);
      assert l in LinesIn(f, o', |f|);
      LongLineBlocks(f, o', maxBytes, l, n - 1);
    }
  }

  lemma {:induction false} ShortLinesDrain(f: Bytes, o: nat, maxBytes: nat) returns (n: nat)
    requires o <= |f| && forall l <- LinesIn(f, o, |f|) :: |l.text| < maxBytes
    ensures Ticks(f, o, maxBytes, n) == PendingEnd(f, o)
    decreases PendingEnd(f, o) - o
  {
    TickAdvancesIff(f, o, maxBytes);
    TickReadsUpToNewOffset(f, o, |f|);
    if LinesIn(f, o, |f|) == [] {
      n := 0;
    } else {
      var m := ShortLinesDrain(f, TickOffset(f, o, maxBytes), maxBytes);
      n := m + 1;
    }
  }

  /** Repeated ticks over a quiet file reach the end of its last complete line exactly when no
      pending line, with its break, is longer than one read. */
  lemma {:induction false} TicksDrainIff(f: Bytes, o: nat, maxBytes: nat)
    requires o <= |f|
    ensures (exists n: nat :: Ticks(f, o, maxBytes, n) == PendingEnd(f, o))
       <==> forall l <- LinesIn(f, o, |f|) :: |l.text| < maxBytes
  {
    if forall l <- LinesIn(f, o, |f|) :: |l.text| < maxBytes {
      var n := ShortLinesDrain(f, o, maxBytes);
    } else {
      var l :| l in LinesIn(f, o, |f|) && maxBytes <= |l.text|;
      LineShape(f, o, |f|, l);
      TickReadsUpToNewOffset(f, o, |f|);
      LineShape(f, o, PendingEnd(f, o), l);
      forall n: nat ensures Ticks(f, o, maxBytes, n) != PendingEnd(f, o) {
        LongLineBlocks(f, o, maxBytes, l, n);
      }
    }
  }
}
