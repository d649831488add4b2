/** The JavaScript string operations the parsers below rely on: `indexOf`, `split` with a
    string separator, and `trim`. */
module Strings {

  /* ------------------------------- occurrences ------------------------------- */

  predicate OccursAt(d: string, s: string, i: int) {
    0 <= i <= |s| - |d| && s[i..i + |d|] == d
  }

  ghost predicate Contains(s: string, d: string) {
    exists i :: OccursAt(d, s, i)
  }

  function IndexOf(s: string, d: string, from: nat): (r: int)
    ensures r == -1 || from <= r <= |s| - |d|
    decreases |s| - from
  {
    if from + |d| > |s| then -1
    else if OccursAt(d, s, from) then from
    else IndexOf(s, d, from + 1)
  }

  /** `IndexOf` is the first occurrence, or -1 when there is none. */
  lemma {:induction false} IndexOfIsFirst(s: string, d: string, from: nat)
    ensures var r := IndexOf(s, d, from);
            && (r >= 0 ==> OccursAt(d, s, r))
            && forall k :: from <= k && (r == -1 || k < r) ==> !OccursAt(d, s, k)
    decreases |s| - from
  {
    if from + |d| <= |s| && !OccursAt(d, s, from) { IndexOfIsFirst(s, d, from + 1); }
  }

  lemma {:induction false} OccursInSlice(s: string, d: string, lo: nat, hi: nat, i: int)
    requires lo <= hi <= |s| && 0 <= i <= hi - lo - |d|
    ensures OccursAt(d, s[lo..hi], i) <==> OccursAt(d, s, lo + i)
  {
    var a, b := s[lo..hi][i..i + |d|], s[lo + i..lo + i + |d|];
    forall k | 0 <= k < |d| ensures a[k] == b[k] {}
    assert a == b;
  }

  lemma {:induction false} SliceKeepsAbsence(s: string, d: string, lo: nat, hi: nat)
    requires lo <= hi <= |s| && !Contains(s, d)
    ensures !Contains(s[lo..hi], d)
  {
    forall i ensures !OccursAt(d, s[lo..hi], i) {
      if 0 <= i <= hi - lo - |d| { OccursInSlice(s, d, lo, hi, i); }
    }
  }

  /* ---------------------------------- split ---------------------------------- */

  function Split(s: string, d: string): (r: seq<string>)
    requires d != ""
    ensures r != []
    decreases |s|
  {
    var i := IndexOf(s, d, 0);
    if i < 0 then [s] else [s[..i]] + Split(s[i + |d|..], d)
  }

  /** d laid over e with a shift of k characters disagrees with e somewhere. */
  ghost predicate Clash(d: string, e: string, k: int) {
    exists i :: 0 <= i < |d| && 0 <= k + i < |e| && d[i] != e[k + i]
  }

  /** No copy of d can share characters with a copy of e. */
  ghost predicate NoOverlap(d: string, e: string) {
    forall k :: -|d| < k < |e| ==> Clash(d, e, k)
  }

  /** Two copies of d can only overlap by coinciding. */
  ghost predicate Unbordered(d: string) {
    forall k :: -|d| < k < 0 ==> Clash(d, d, k)
  }

  lemma {:induction false} ClashExcludes(a: string, e: string, b: string, d: string, q: int)
    requires Clash(d, e, q - |a|)
    ensures !OccursAt(d, a + e + b, q)
  {
    var j :| 0 <= j < |d| && 0 <= q - |a| + j < |e| && d[j] != e[q - |a| + j];
    var s := a + e + b;
    assert s[q + j] == e[q - |a| + j];
    assert 0 <= q <= |s| - |d| ==> s[q..q + |d|][j] == s[q + j];
  }

  lemma {:induction false} SplitAbsent(p: string, d: string)
    requires d != "" && !Contains(p, d)
    ensures Split(p, d) == [p]
  {
    IndexOfIsFirst(p, d, 0);
  }

  lemma {:induction false} SplitCons(p: string, d: string, rest: string)
    requires d != "" && Unbordered(d) && !Contains(p, d)
    ensures Split(p + d + rest, d) == [p] + Split(rest, d)
  {
    var s := p + d + rest;
    forall i | 0 <= i < |p| ensures !OccursAt(d, s, i) {
      if i + |d| <= |p| {
        assert s[0..|p|] == p;
        OccursInSlice(s, d, 0, |p|, i);
      } else {
        ClashExcludes(p, d, rest, d, i);
      }
    }
    assert OccursAt(d, s, |p|);
    IndexOfIsFirst(s, d, 0);
    assert IndexOf(s, d, 0) == |p|;
    assert s[..|p|] == p && s[|p| + |d|..] == rest;
  }

  function Join(pieces: seq<string>, d: string): string
    requires pieces != []
  {
    if |pieces| == 1 then pieces[0] else pieces[0] + d + Join(pieces[1..], d)
  }

  /** Splitting undoes joining when no piece holds the delimiter and the delimiter does not overlap
      a proper shift of itself. */
  lemma {:induction false} SplitJoin(pieces: seq<string>, d: string)
    requires pieces != [] && d != "" && Unbordered(d)
    requires forall i :: 0 <= i < |pieces| ==> !Contains(pieces[i], d)
    ensures Split(Join(pieces, d), d) == pieces
  {
    if |pieces| == 1 {
      SplitAbsent(pieces[0], d);
    } else {
      SplitJoin(pieces[1..], d);
      SplitCons(pieces[0], d, Join(pieces[1..], d));
    }
  }

  lemma {:induction false} SplitPiecesLackDelimiter(s: string, d: string)
    requires d != ""
    ensures forall p <- Split(s, d) :: !Contains(p, d)
    decreases |s|
  {
    var i := IndexOf(s, d, 0);
    IndexOfIsFirst(s, d, 0);
    if i >= 0 {
      SplitPiecesLackDelimiter(s[i + |d|..], d);
      assert s[0..i] == s[..i];
      forall k ensures !OccursAt(d, s[..i], k) {
        if 0 <= k <= i - |d| { OccursInSlice(s, d, 0, i, k); }
      }
    }
  }

  /** Splitting never brings in a string the whole did not contain. */
  lemma {:induction false} SplitPiecesKeepAbsence(s: string, d: string, e: string)
    requires d != "" && !Contains(s, e)
    ensures forall p <- Split(s, d) :: !Contains(p, e)
    decreases |s|
  {
    var i := IndexOf(s, d, 0);
    if i >= 0 {
      SliceKeepsAbsence(s, e, 0, i);
      assert s[0..i] == s[..i];
      SliceKeepsAbsence(s, e, i + |d|, |s|);
      assert s[i + |d|..|s|] == s[i + |d|..];
      SplitPiecesKeepAbsence(s[i + |d|..], d, e);
    }
  }

  /** A separator that cannot overlap d creates no new copy of d. */
  lemma {:induction false} GluedAbsence(a: string, e: string, b: string, d: string)
    requires NoOverlap(d, e) && !Contains(a, d) && !Contains(b, d)
    ensures !Contains(a + e + b, d)
  {
    var s := a + e + b;
    assert s[0..|a|] == a && s[|a| + |e|..|s|] == b;
    forall q ensures !OccursAt(d, s, q) {
      if -|d| < q - |a| < |e| {
        ClashExcludes(a, e, b, d, q);
      } else if 0 <= q && q + |d| <= |a| {
        OccursInSlice(s, d, 0, |a|, q);
      } else if |a| + |e| <= q <= |s| - |d| {
        OccursInSlice(s, d, |a| + |e|, |s|, q - |a| - |e|);
      }
    }
  }

  /* ----------------------------------- trim ---------------------------------- */

  /** The white space and line terminators `String.prototype.trim` removes. */
  predicate IsSpace(c: char) {
    || '\U{0009}' <= c <= '\U{000D}' || c == ' ' || c == '\U{00A0}' || c == '\U{1680}'
    || '\U{2000}' <= c <= '\U{200A}' || c == '\U{2028}' || c == '\U{2029}'
    || c == '\U{202F}' || c == '\U{205F}' || c == '\U{3000}' || c == '\U{FEFF}'
  }

  predicate Blank(s: string) {
    forall i :: 0 <= i < |s| ==> IsSpace(s[i])
  }

  function TrimStart(s: string): string {
    if s == "" || !IsSpace(s[0]) then s else TrimStart(s[1..])
  }

  function TrimEnd(s: string): string {
    if s == "" || !IsSpace(s[|s| - 1]) then s else TrimEnd(s[..|s| - 1])
  }

  function Trim(s: string): string {
    TrimEnd(TrimStart(s))
  }

  predicate Trimmed(s: string) {
    s == "" || (!IsSpace(s[0]) && !IsSpace(s[|s| - 1]))
  }

  lemma {:induction false} TrimStartIsSuffix(s: string)
    ensures var r := TrimStart(s);
            && |r| <= |s| && r == s[|s| - |r|..] && Blank(s[..|s| - |r|])
            && (r != "" ==> !IsSpace(r[0]))
  {
    if s != "" && IsSpace(s[0]) {
      var rest, r := s[1..], TrimStart(s[1..]);
      TrimStartIsSuffix(rest);
      assert rest[|rest| - |r|..] == s[|s| - |r|..];
      assert s[..|s| - |r|] == [s[0]] + rest[..|rest| - |r|];
    } else {
      assert s[0..] == s && s[..0] == "";
    }
  }

  lemma {:induction false} TrimEndIsPrefix(s: string)
    ensures var r := TrimEnd(s);
            && |r| <= |s| && r == s[..|r|] && Blank(s[|r|..])
            && (r != "" ==> !IsSpace(r[|r| - 1]))
  {
    if s != "" && IsSpace(s[|s| - 1]) {
      var init, r := s[..|s| - 1], TrimEnd(s[..|s| - 1]);
      TrimEndIsPrefix(init);
      assert init[..|r|] == s[..|r|];
      assert s[|r|..] == init[|r|..] + [s[|s| - 1]];
    } else {
      assert s[..|s|] == s && s[|s|..] == "";
    }
  }

  /** Trimming peels blank margins off a slice that has none. */
  lemma {:induction false} TrimIsTrimmedSlice(s: string) returns (lo: nat, hi: nat)
    ensures lo <= hi <= |s| && Trim(s) == s[lo..hi] && Trimmed(Trim(s))
    ensures Blank(s[..lo]) && Blank(s[hi..])
  {
    var t := TrimStart(s);
    TrimStartIsSuffix(s);
    TrimEndIsPrefix(t);
    lo := |s| - |t|;
    hi := lo + |TrimEnd(t)|;
    assert s[hi..] == t[|TrimEnd(t)|..];
  }

  /** A string has at most one trimmed core under blank margins, except for blank strings. */
  lemma {:induction false} CoreIsUnique(s: string, lo: nat, hi: nat, lo': nat, hi': nat)
    requires lo <= hi <= |s| && lo' <= hi' <= |s|
    requires Blank(s[..lo]) && Blank(s[hi..]) && Blank(s[..lo']) && Blank(s[hi'..])
    requires Trimmed(s[lo..hi]) && Trimmed(s[lo'..hi'])
    ensures s[lo..hi] == s[lo'..hi']
  {
    assert forall i :: 0 <= i < |s| && (i < lo || hi <= i) ==> IsSpace(s[i]) by {
      assert forall i :: 0 <= i < lo ==> s[..lo][i] == s[i];
      assert forall i :: hi <= i < |s| ==> s[hi..][i - hi] == s[i];
    }
    assert forall i :: 0 <= i < |s| && (i < lo' || hi' <= i) ==> IsSpace(s[i]) by {
      assert forall i :: 0 <= i < lo' ==> s[..lo'][i] == s[i];
      assert forall i :: hi' <= i < |s| ==> s[hi'..][i - hi'] == s[i];
    }
    assert lo < hi ==> !IsSpace(s[lo]) && !IsSpace(s[hi - 1]);
    assert lo' < hi' ==> !IsSpace(s[lo']) && !IsSpace(s[hi' - 1]);
  }

  /** A trimmed core is recovered from under any blank margins. */
  lemma {:induction false} TrimPadded(l: string, core: string, r: string)
    requires Blank(l) && Trimmed(core) && Blank(r)
    ensures Trim(l + core + r) == core
  {
    var s := l + core + r;
    var lo, hi := TrimIsTrimmedSlice(s);
    assert s[..|l|] == l && s[|l|..|l| + |core|] == core && s[|l| + |core|..] == r;
    CoreIsUnique(s, lo, hi, |l|, |l| + |core|);
  }

  /** Trailing blanks do not change what trimming yields. */
  lemma {:induction false} TrimIgnoresTail(s: string, w: string)
    requires Blank(w)
    ensures Trim(s + w) == Trim(s)
  {
    var lo, hi := TrimIsTrimmedSlice(s);
    var tail := s[hi..] + w;
    assert s + w == s[..lo] + s[lo..hi] + tail;
    TrimPadded(s[..lo], s[lo..hi], tail);
  }

  /* -------------------------------- joined keys ------------------------------- */

  /** Parts that do not hold the separating character can be read off a joined key. */
  lemma {:induction false} FirstCharSplits(d: char, a: string, x: string, b: string, y: string)
    requires d !in a && d !in b && a + [d] + x == b + [d] + y
    ensures a == b && x == y
  {
    var s := a + [d] + x;
    assert forall i :: 0 <= i < |a| ==> s[i] == a[i];
    assert forall i :: 0 <= i < |b| ==> s[i] == b[i];
    assert s[|a|] == d && s[|b|] == d;
    assert |a| == |b|;
    assert a == s[..|a|] && x == s[|a| + 1..] && y == s[|b| + 1..];
  }
}
