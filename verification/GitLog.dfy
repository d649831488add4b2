/** The git watcher's commit parser against the log format it asks git for
    (src/workers/git-watcher.ts). */
module GitLog {
  import opened SeqTools
  import opened Strings

  const COMMIT_DELIM := "<<<COMMIT_START>>>"
  const FIELD_DELIM := "<<<FIELD>>>"
  const FILES_DELIM := "<<<FILES>>>"

  datatype Commit = Commit(sha: string, isoDate: string, author: string, authorEmail: string,
                           subject: string, body: string, files: seq<string>)

  /* ---------------------------------- parsing --------------------------------- */

  /** A trimmed line, dropped when nothing is left of it. */
  function CleanLine(line: string): seq<string> {
    if Trim(line) == "" then [] else [Trim(line)]
  }

  function FilesOf(part: string): seq<string> {
    FlatMap(CleanLine, Split(part, "\n"))
  }

  /** One trimmed block between commit delimiters; nothing where the source skips it. */
  function ParseBlock(block: string): seq<Commit> {
    var parts := Split(block, FILES_DELIM);
    var filesPart := if |parts| > 1 then parts[1] else "";
    var fields := Split(parts[0], FIELD_DELIM);
    if block == "" || parts[0] == "" || |fields| < 6 || Trim(fields[0]) == "" then []
    else [Commit(Trim(fields[0]), Trim(fields[1]), Trim(fields[2]), Trim(fields[3]),
                 Trim(fields[4]), Trim(fields[5]), FilesOf(filesPart))]
  }

  function ParsePiece(piece: string): seq<Commit> {
    ParseBlock(Trim(piece))
  }

  function Parse(raw: string): seq<Commit> {
    FlatMap(ParsePiece, Split(raw, COMMIT_DELIM))
  }

  method ParseCommits(raw: string) returns (out: seq<Commit>)
    ensures out == Parse(raw)
  {
    var pieces := Split(raw, COMMIT_DELIM);
    out := [];
    for n := 0 to |pieces|
      invariant out == FlatMap(ParsePiece, pieces[..n])
    {
      FlatMapNext(ParsePiece, pieces, n);
      var found := ParseNext(pieces[n]);
      out := out + found;
    }
    assert pieces[..|pieces|] == pieces;
  }

  /** The body of the loop: the commit of one piece, if it holds one. */
  method ParseNext(piece: string) returns (found: seq<Commit>)
    ensures found == ParsePiece(piece)
  {
    found := [];
    var block := Trim(piece);
    if block == "" { return; }
    var parts := Split(block, FILES_DELIM);
    var head, filesPart := parts[0], if |parts| > 1 then parts[1] else "";
    if head == "" { return; }
    var fields := Split(head, FIELD_DELIM);
    if |fields| < 6 { return; }
    var sha := Trim(fields[0]);
    if sha != "" {
      found := [Commit(sha, Trim(fields[1]), Trim(fields[2]), Trim(fields[3]),
                       Trim(fields[4]), Trim(fields[5]), FilesOf(filesPart))];
    }
  }

  /* --------------------------------- rendering -------------------------------- */

  /** White space git adds around one record: after the body and after the file list. */
  datatype Margins = Margins(afterBody: string, afterFiles: string)

  ghost predicate BlankMargins(m: Margins) {
    Blank(m.afterBody) && Blank(m.afterFiles)
  }

  function FileText(files: seq<string>): string {
    if files == [] then "" else "\n" + files[0] + FileText(files[1..])
  }

  /** The fields before the file list, as the `--pretty=format:` argument lays them out. */
  function Head(c: Commit, m: Margins): string {
    c.sha + FIELD_DELIM + (c.isoDate + FIELD_DELIM + (c.author + FIELD_DELIM +
    (c.authorEmail + FIELD_DELIM + (c.subject + FIELD_DELIM + (c.body + m.afterBody)))))
  }

  function Block(c: Commit, m: Margins): string {
    Head(c, m) + FILES_DELIM + (FileText(c.files) + m.afterFiles)
  }

  function Records(blocks: seq<string>): string {
    if blocks == [] then "" else COMMIT_DELIM + (blocks[0] + Records(blocks[1..]))
  }

  /** What `git log --name-only` prints for these commits. */
  function Render(cs: seq<Commit>, ms: seq<Margins>): string
    requires |ms| == |cs|
  {
    Records(seq(|cs|, i requires 0 <= i < |cs| => Block(cs[i], ms[i])))
  }

  /* ------------------------- which commits survive a trip --------------------- */

  ghost predicate CleanText(s: string) {
    Trimmed(s) && !Contains(s, COMMIT_DELIM) && !Contains(s, FILES_DELIM)
  }

  ghost predicate CleanField(s: string) {
    CleanText(s) && !Contains(s, FIELD_DELIM)
  }

  ghost predicate CleanFile(f: string) {
    f != "" && CleanText(f) && !Contains(f, "\n")
  }

  ghost predicate Clean(c: Commit) {
    && c.sha != "" && CleanField(c.sha) && CleanField(c.isoDate) && CleanField(c.author)
    && CleanField(c.authorEmail) && CleanField(c.subject) && CleanField(c.body)
    && forall f <- c.files :: CleanFile(f)
  }

  /* ----------------------------- delimiter geometry --------------------------- */

  /** Three '<' and then no other: the shape all three delimiters share. */
  ghost predicate Bracketed(d: string) {
    |d| > 3 && forall i :: 0 <= i < |d| ==> (d[i] == '<' <==> i < 3)
  }

  lemma {:induction false} ShiftedCopiesClash(d: string, e: string, k: int)
    requires Bracketed(d) && Bracketed(e) && -|d| < k < |e| && k != 0
    ensures Clash(d, e, k)
  {
    var i := if k <= -3 then -k else if k < 0 then 3 else if k < 3 then 3 - k else 0;
    assert 0 <= i < |d| && 0 <= k + i < |e| && d[i] != e[k + i];
  }

  lemma {:induction false} DelimitersNeverOverlap()
    ensures Unbordered(COMMIT_DELIM) && Unbordered(FIELD_DELIM) && Unbordered(FILES_DELIM)
    ensures NoOverlap(COMMIT_DELIM, FIELD_DELIM) && NoOverlap(COMMIT_DELIM, FILES_DELIM)
    ensures NoOverlap(FILES_DELIM, FIELD_DELIM)
  {
    var ds := [COMMIT_DELIM, FIELD_DELIM, FILES_DELIM];
    assert forall d <- ds :: Bracketed(d);
    forall d, e, k | d in ds && e in ds && -|d| < k < |e| && k != 0 ensures Clash(d, e, k) {
      ShiftedCopiesClash(d, e, k);
    }
    assert COMMIT_DELIM[3] != FIELD_DELIM[3] && COMMIT_DELIM[3] != FILES_DELIM[3];
    assert FILES_DELIM[5] != FIELD_DELIM[5];
    assert Clash(COMMIT_DELIM, FIELD_DELIM, 0) && Clash(COMMIT_DELIM, FILES_DELIM, 0);
    assert Clash(FILES_DELIM, FIELD_DELIM, 0);
  }

  /** Text followed by blanks contains a delimiter only if the text does. */
  lemma {:induction false} PaddedAbsence(s: string, w: string, d: string)
    requires Blank(w) && Bracketed(d) && !Contains(s, d) && d[|d| - 1] == '>'
    ensures !Contains(s + w, d)
  {
    assert (s + w)[0..|s|] == s;
    forall i ensures !OccursAt(d, s + w, i) {
      if 0 <= i && i + |d| <= |s| {
        OccursInSlice(s + w, d, 0, |s|, i);
      } else if 0 <= i && i + |d| <= |s + w| {
        assert (s + w)[i + (|d| - 1)] == w[i + |d| - 1 - |s|];
      }
    }
  }

  /* ------------------------- clean commits survive the trip ------------------- */

  lemma {:induction false} FilesOfCons(p: string, rest: string)
    requires !Contains(p, "\n")
    ensures FilesOf(p + "\n" + rest) == CleanLine(p) + FilesOf(rest)
  {
    SplitCons(p, "\n", rest);
  }

  /** A text has no line break, or one after an unbroken first line. */
  lemma {:induction false} FirstLine(s: string) returns (broken: bool, u: string, v: string)
    ensures !broken ==> !Contains(s, "\n")
    ensures broken ==> s == u + "\n" + v && !Contains(u, "\n") && |v| < |s|
  {
    var i := IndexOf(s, "\n", 0);
    IndexOfIsFirst(s, "\n", 0);
    broken, u, v := false, "", "";
    if i >= 0 {
      broken, u, v := true, s[..i], s[i + 1..];
      BreakAt(s, i);
      SliceKeepsFirst(s, i);
    }
  }

  lemma {:induction false} BreakAt(s: string, i: nat)
    requires OccursAt("\n", s, i)
    ensures i < |s| && s == s[..i] + "\n" + s[i + 1..]
  {
    assert s[i..i + 1][0] == s[i];
  }

  lemma {:induction false} SliceKeepsFirst(s: string, i: nat)
    requires i <= |s| && forall k :: 0 <= k < i ==> !OccursAt("\n", s, k)
    ensures !Contains(s[..i], "\n")
  {
    assert s[0..i] == s[..i];
    forall k ensures !OccursAt("\n", s[..i], k) {
      if 0 <= k < i { OccursInSlice(s, "\n", 0, i, k); }
    }
  }

  lemma {:induction false} BlankParts(w: string, u: string, v: string)
    requires Blank(w) && w == u + "\n" + v
    ensures Blank(u) && Blank(v)
  {
    assert forall i :: 0 <= i < |u| ==> u[i] == w[i];
    assert forall i :: 0 <= i < |v| ==> v[i] == w[|u| + 1 + i];
  }

  lemma {:induction false} FilesOfBlank(w: string)
    requires Blank(w)
    ensures FilesOf(w) == []
    decreases |w|
  {
    var broken, u, v := FirstLine(w);
    if broken {
      BlankParts(w, u, v);
      FilesOfBlank(v);
      TrimBlank(u);
      FilesOfCons(u, v);
    } else {
      TrimBlank(w);
      FilesOfSingle(w);
    }
  }

  lemma {:induction false} TrimBlank(w: string)
    requires Blank(w)
    ensures Trim(w) == ""
  {
    TrimPadded(w, "", "");
    assert w + "" + "" == w;
  }

  lemma {:induction false} NoLineBreak(s: string, w: string)
    requires !Contains(s, "\n") && !Contains(w, "\n")
    ensures !Contains(s + w, "\n")
  {
    forall k ensures !OccursAt("\n", s + w, k) {
      if 0 <= k < |s| {
        assert !OccursAt("\n", s, k) && (s + w)[k..k + 1] == s[k..k + 1];
      } else if |s| <= k < |s + w| {
        assert !OccursAt("\n", w, k - |s|) && (s + w)[k..k + 1] == w[k - |s|..k - |s| + 1];
      }
    }
  }

  lemma {:induction false} FilesOfSingle(p: string)
    requires !Contains(p, "\n")
    ensures FilesOf(p) == CleanLine(p)
  {
    SplitAbsent(p, "\n");
    FlatMapSnoc(CleanLine, [], p);
    assert [] + [p] == [p];
  }

  lemma {:induction false} BlankLinesAfter(s: string, u: string, v: string)
    requires !Contains(s, "\n") && !Contains(u, "\n") && Blank(u) && Blank(v)
    ensures FilesOf(s + u + "\n" + v) == CleanLine(s)
  {
    NoLineBreak(s, u);
    FilesOfBlank(v);
    TrimIgnoresTail(s, u);
    FilesOfCons(s + u, v);
    assert CleanLine(s) + [] == CleanLine(s);
  }

  lemma {:induction false} FilesOfUnbrokenPadded(s: string, w: string)
    requires Blank(w) && !Contains(s, "\n")
    ensures FilesOf(s + w) == CleanLine(s)
  {
    var broken, u, v := FirstLine(w);
    if broken {
      BlankParts(w, u, v);
      BlankLinesAfter(s, u, v);
      assert s + w == s + u + "\n" + v;
    } else {
      NoLineBreak(s, w);
      FilesOfSingle(s + w);
      TrimIgnoresTail(s, w);
    }
  }

  lemma {:induction false} PaddedAfterLine(p: string, q: string, w: string)
    requires !Contains(p, "\n") && FilesOf(q + w) == FilesOf(q)
    ensures FilesOf(p + "\n" + (q + w)) == FilesOf(p + "\n" + q)
  {
    FilesOfCons(p, q);
    FilesOfCons(p, q + w);
  }

  /** Blanks after the file list, line breaks included, add no file. */
  lemma {:induction false} FilesOfPadded(s: string, w: string)
    requires Blank(w)
    ensures FilesOf(s + w) == FilesOf(s)
    decreases |s|
  {
    var broken, p, q := FirstLine(s);
    if broken {
      FilesOfPadded(q, w);
      PaddedAfterLine(p, q, w);
      assert s + w == p + "\n" + (q + w);
    } else {
      FilesOfUnbrokenPadded(s, w);
      FilesOfSingle(s);
    }
  }

  lemma {:induction false} FilesOfText(p: string, files: seq<string>)
    requires !Contains(p, "\n") && forall f <- files :: CleanFile(f)
    ensures FilesOf(p + FileText(files)) == CleanLine(p) + files
    decreases |files|
  {
    if files == [] {
      assert p + FileText(files) == p;
      FilesOfSingle(p);
    } else {
      assert CleanFile(files[0]);
      FilesOfText(files[0], files[1..]);
      TrimPadded("", files[0], "");
      assert "" + files[0] + "" == files[0];
      assert p + FileText(files) == p + "\n" + (files[0] + FileText(files[1..]));
      FilesOfCons(p, files[0] + FileText(files[1..]));
    }
  }

  lemma {:induction false} FileTextLacks(p: string, files: seq<string>, d: string)
    requires NoOverlap(d, "\n") && !Contains(p, d) && forall f <- files :: !Contains(f, d)
    ensures !Contains(p + FileText(files), d)
    decreases |files|
  {
    if files == [] {
      assert p + FileText(files) == p;
    } else {
      assert files[0] in files;
      FileTextLacks(files[0], files[1..], d);
      GluedAbsence(p, "\n", files[0] + FileText(files[1..]), d);
      assert p + FileText(files) == p + "\n" + (files[0] + FileText(files[1..]));
    }
  }

  lemma {:induction false} TrimTrimmed(s: string)
    requires Trimmed(s)
    ensures Trim(s) == s
  {
    TrimPadded("", s, "");
    assert "" + s + "" == s;
  }

  lemma {:induction false} SixFields(d: string, f0: string, f1: string, f2: string, f3: string, f4: string, f5: string)
    requires d != "" && Unbordered(d)
    requires !Contains(f0, d) && !Contains(f1, d) && !Contains(f2, d) && !Contains(f3, d) && !Contains(f4, d) && !Contains(f5, d)
    ensures Split(f0 + d + (f1 + d + (f2 + d + (f3 + d + (f4 + d + f5)))), d) == [f0, f1, f2, f3, f4, f5]
  {
    var r4, r3, r2, r1 := [f4, f5], [f3, f4, f5], [f2, f3, f4, f5], [f1, f2, f3, f4, f5];
    var fs := [f0, f1, f2, f3, f4, f5];
    assert r4[1..] == [f5] && r3[1..] == r4 && r2[1..] == r3 && r1[1..] == r2 && fs[1..] == r1;
    assert Join(r3, d) == f3 + d + Join(r4, d) && Join(r4, d) == f4 + d + f5;
    assert Join(r1, d) == f1 + d + Join(r2, d) && Join(r2, d) == f2 + d + Join(r3, d);
    SplitJoin(fs, d);
  }

  /** The fields, as split, and what each trims to. */
  lemma {:induction false} HeadFields(c: Commit, m: Margins)
    requires Clean(c) && BlankMargins(m)
    ensures Split(Head(c, m), FIELD_DELIM)
         == [c.sha, c.isoDate, c.author, c.authorEmail, c.subject, c.body + m.afterBody]
    ensures Trim(c.body + m.afterBody) == c.body
  {
    DelimitersNeverOverlap();
    var body := c.body + m.afterBody;
    PaddedAbsence(c.body, m.afterBody, FIELD_DELIM);
    SixFields(FIELD_DELIM, c.sha, c.isoDate, c.author, c.authorEmail, c.subject, body);
    TrimPadded("", c.body, m.afterBody);
    assert "" + c.body + m.afterBody == c.body + m.afterBody;
  }

  lemma {:induction false} HeadLacks(c: Commit, m: Margins, d: string)
    requires Clean(c) && BlankMargins(m) && d in [COMMIT_DELIM, FILES_DELIM]
    ensures !Contains(Head(c, m), d)
  {
    DelimitersNeverOverlap();
    PaddedAbsence(c.body, m.afterBody, d);
    var r5 := c.body + m.afterBody;
    var r4 := c.subject + FIELD_DELIM + r5;
    var r3 := c.authorEmail + FIELD_DELIM + r4;
    var r2 := c.author + FIELD_DELIM + r3;
    var r1 := c.isoDate + FIELD_DELIM + r2;
    GluedAbsence(c.subject, FIELD_DELIM, r5, d);
    GluedAbsence(c.authorEmail, FIELD_DELIM, r4, d);
    GluedAbsence(c.author, FIELD_DELIM, r3, d);
    GluedAbsence(c.isoDate, FIELD_DELIM, r2, d);
    GluedAbsence(c.sha, FIELD_DELIM, r1, d);
  }

  lemma {:induction false} TailLacks(c: Commit, m: Margins, d: string)
    requires Clean(c) && BlankMargins(m) && d in [COMMIT_DELIM, FILES_DELIM]
    ensures !Contains(FileText(c.files) + m.afterFiles, d)
  {
    forall k | -|d| < k < 1 ensures Clash(d, "\n", k) {
      assert d[-k] != '\n';
    }
    forall f <- c.files ensures !Contains(f, d) { assert CleanFile(f); }
    forall i ensures !OccursAt(d, "", i) {}
    FileTextLacks("", c.files, d);
    assert "" + FileText(c.files) == FileText(c.files);
    PaddedAbsence(FileText(c.files), m.afterFiles, d);
  }

  lemma {:induction false} BlankEnds(s: string, lo: nat, hi: nat)
    requires lo <= hi <= |s| && Blank(s[..lo]) && Blank(s[hi..])
    ensures forall i :: 0 <= i < lo || hi <= i < |s| ==> IsSpace(s[i])
  {
    var front, back := s[..lo], s[hi..];
    forall i | 0 <= i < lo ensures IsSpace(s[i]) { assert front[i] == s[i]; }
    forall i | hi <= i < |s| ensures IsSpace(s[i]) { assert back[i - hi] == s[i]; }
  }

  /** Trimming a block shortens only its file list, and only by blanks. */
  lemma {:induction false} TrimmedBlock(c: Commit, m: Margins) returns (x: string, w: string)
    requires Clean(c)
    ensures Trim(Block(c, m)) == Head(c, m) + FILES_DELIM + x && Blank(w)
    ensures x + w == FileText(c.files) + m.afterFiles
  {
    var s := Block(c, m);
    var front := Head(c, m) + FILES_DELIM;
    var lo, hi := TrimIsTrimmedSlice(s);
    assert s[0] == c.sha[0] && !IsSpace(s[0]);
    BlankEnds(s, lo, hi);
    assert lo == 0;
    assert s[|front| - 1] == '>';
    assert |front| <= hi;
    x, w := s[|front|..hi], s[hi..];
    assert s[lo..hi] == front + x;
    assert x + w == s[|front|..];
  }

  lemma {:induction false} FilesSurvive(c: Commit, m: Margins, x: string, w: string)
    requires Clean(c) && BlankMargins(m) && Blank(w) && x + w == FileText(c.files) + m.afterFiles
    ensures FilesOf(x) == c.files
  {
    FilesOfPadded(x, w);
    FilesOfPadded(FileText(c.files), m.afterFiles);
    forall i ensures !OccursAt("\n", "", i) {}
    FilesOfText("", c.files);
    assert "" + FileText(c.files) == FileText(c.files);
    TrimTrimmed("");
  }

  lemma {:induction false} BlockRoundTrip(c: Commit, m: Margins)
    requires Clean(c) && BlankMargins(m)
    ensures ParsePiece(Block(c, m)) == [c]
  {
    DelimitersNeverOverlap();
    var x, w := TrimmedBlock(c, m);
    var tail := FileText(c.files) + m.afterFiles;
    HeadLacks(c, m, FILES_DELIM);
    TailLacks(c, m, FILES_DELIM);
    SliceKeepsAbsence(tail, FILES_DELIM, 0, |x|);
    assert tail[0..|x|] == x;
    SplitCons(Head(c, m), FILES_DELIM, x);
    SplitAbsent(x, FILES_DELIM);
    HeadFields(c, m);
    TrimTrimmed(c.sha); TrimTrimmed(c.isoDate); TrimTrimmed(c.author);
    TrimTrimmed(c.authorEmail); TrimTrimmed(c.subject);
    FilesSurvive(c, m, x, w);
  }

  lemma {:induction false} BlockLacksCommitDelimiter(c: Commit, m: Margins)
    requires Clean(c) && BlankMargins(m)
    ensures !Contains(Block(c, m), COMMIT_DELIM)
  {
    DelimitersNeverOverlap();
    HeadLacks(c, m, COMMIT_DELIM);
    TailLacks(c, m, COMMIT_DELIM);
    GluedAbsence(Head(c, m), FILES_DELIM, FileText(c.files) + m.afterFiles, COMMIT_DELIM);
  }

  /** Splitting a rendered log gives every block to the block parser f, in order. */
  lemma {:induction false} BlocksReachParser(f: string -> seq<Commit>, p: string, blocks: seq<string>)
    requires !Contains(p, COMMIT_DELIM) && forall b <- blocks :: !Contains(b, COMMIT_DELIM)
    ensures FlatMap(f, Split(p + Records(blocks), COMMIT_DELIM)) == f(p) + FlatMap(f, blocks)
    decreases |blocks|
  {
    FlatMapSnoc(f, [], p);
    assert [] + [p] == [p];
    if blocks == [] {
      assert p + Records(blocks) == p;
      SplitAbsent(p, COMMIT_DELIM);
    } else {
      var b, rest := blocks[0], Records(blocks[1..]);
      BlocksReachParser(f, b, blocks[1..]);
      DelimitersNeverOverlap();
      assert p + Records(blocks) == p + COMMIT_DELIM + (b + rest);
      SplitCons(p, COMMIT_DELIM, b + rest);
      FlatMapAppend(f, [p], Split(b + rest, COMMIT_DELIM));
    }
  }

  /* ------------------- everything the parser returns is clean ------------------ */

  lemma {:induction false} TrimmedPieceIsCleanText(piece: string)
    requires !Contains(piece, COMMIT_DELIM) && !Contains(piece, FILES_DELIM)
    ensures CleanText(Trim(piece))
    ensures forall d :: !Contains(piece, d) ==> !Contains(Trim(piece), d)
  {
    var lo, hi := TrimIsTrimmedSlice(piece);
    forall d | !Contains(piece, d) ensures !Contains(Trim(piece), d) {
      SliceKeepsAbsence(piece, d, lo, hi);
    }
  }

  lemma {:induction false} FilesOfAreClean(part: string)
    requires !Contains(part, COMMIT_DELIM) && !Contains(part, FILES_DELIM)
    ensures forall f <- FilesOf(part) :: CleanFile(f)
  {
    var lines := Split(part, "\n");
    SplitPiecesLackDelimiter(part, "\n");
    SplitPiecesKeepAbsence(part, "\n", COMMIT_DELIM);
    SplitPiecesKeepAbsence(part, "\n", FILES_DELIM);
    forall f <- FlatMap(CleanLine, lines) ensures CleanFile(f) {
      var line := FlatMapOrigin(CleanLine, lines, f);
      TrimmedPieceIsCleanText(line);
    }
  }

  lemma {:induction false} ParsePieceIsClean(piece: string)
    requires !Contains(piece, COMMIT_DELIM)
    ensures forall c <- ParsePiece(piece) :: Clean(c)
  {
    var lo, hi := TrimIsTrimmedSlice(piece);
    SliceKeepsAbsence(piece, COMMIT_DELIM, lo, hi);
    var block := Trim(piece);
    var parts := Split(block, FILES_DELIM);
    SplitPiecesLackDelimiter(block, FILES_DELIM);
    SplitPiecesKeepAbsence(block, FILES_DELIM, COMMIT_DELIM);
    var fields := Split(parts[0], FIELD_DELIM);
    SplitPiecesLackDelimiter(parts[0], FIELD_DELIM);
    SplitPiecesKeepAbsence(parts[0], FIELD_DELIM, COMMIT_DELIM);
    SplitPiecesKeepAbsence(parts[0], FIELD_DELIM, FILES_DELIM);
    forall i | 0 <= i < |fields| ensures CleanField(Trim(fields[i])) {
      TrimmedPieceIsCleanText(fields[i]);
    }
    var filesPart := if |parts| > 1 then parts[1] else "";
    forall d | d != "" ensures !Contains("", d) {}
    FilesOfAreClean(filesPart);
  }

  /** Whatever text it is given, the parser yields clean commits only. */
  lemma {:induction false} ParseYieldsCleanCommits(raw: string)
    ensures forall c <- Parse(raw) :: Clean(c)
  {
    var pieces := Split(raw, COMMIT_DELIM);
    SplitPiecesLackDelimiter(raw, COMMIT_DELIM);
    forall c <- Parse(raw) ensures Clean(c) {
      var piece := FlatMapOrigin(ParsePiece, pieces, c);
      ParsePieceIsClean(piece);
    }
  }

  /** Reading back a rendered log returns the very commits that were rendered exactly when
      each of them is clean. */
  lemma {:induction false} RoundTripIffClean(cs: seq<Commit>, ms: seq<Margins>)
    requires |ms| == |cs| && forall m <- ms :: BlankMargins(m)
    ensures Parse(Render(cs, ms)) == cs <==> forall c <- cs :: Clean(c)
  {
    if forall c <- cs :: Clean(c) {
      var blocks := seq(|cs|, i requires 0 <= i < |cs| => Block(cs[i], ms[i]));
      forall i | 0 <= i < |cs|
        ensures ParsePiece(blocks[i]) == [cs[i]] && !Contains(blocks[i], COMMIT_DELIM)
      {
        assert cs[i] in cs && ms[i] in ms;
        BlockRoundTrip(cs[i], ms[i]);
        BlockLacksCommitDelimiter(cs[i], ms[i]);
      }
      forall d | d != "" ensures !Contains("", d) {}
      TrimTrimmed("");
      BlocksReachParser(ParsePiece, "", blocks);
      FlatMapSingles(ParsePiece, blocks, cs);
      assert "" + Records(blocks) == Records(blocks);
    } else {
      ParseYieldsCleanCommits(Render(cs, ms));
    }
  }

  /** Hence one parse reaches a fixed point: rendering its result and parsing again is lossless. */
  lemma {:induction false} ReparseIsLossless(raw: string, ms: seq<Margins>)
    requires |ms| == |Parse(raw)| && forall m <- ms :: BlankMargins(m)
    ensures Parse(Render(Parse(raw), ms)) == Parse(raw)
  {
    ParseYieldsCleanCommits(raw);
    RoundTripIffClean(Parse(raw), ms);
  }
}
