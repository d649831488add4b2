/** Merging recall routes (src/recall/routes.ts) and the router's second-stage merge
    (src/recall/router.ts). Scores are real numbers. */
module Ranking {
  import opened SeqTools

  datatype Route = Semantic | FullText | Trgm | ConceptTag | EntityRef | TimeBucket | Anchor | Category | GraphWalk

  /** A route's candidate, with the route-specific fields left out. */
  datatype Row = Row(chunkId: string, text: string, normScore: real)

  datatype RouteResult = RouteResult(route: Route, candidates: seq<Row>)

  datatype Merged = Merged(chunkId: string, text: string, hits: seq<Route>, combinedScore: real)

  type Weights = map<Route, real>

  function DefaultWeight(r: Route): real {
    match r
    case Semantic => 1.0
    case FullText => 0.7
    case Trgm => 0.5
    case ConceptTag => 0.8
    case EntityRef => 1.0
    case TimeBucket => 0.6
    case Anchor => 1.2
    case Category => 0.3
    case GraphWalk => 0.9
  }

  function WeightOf(w: Weights, r: Route): real {
    if r in w then w[r] else DefaultWeight(r)
  }

  /* ------------------------- what a merge should compute ---------------------- */

  /** One row of one route; amount is its normScore times the weight of its route. */
  datatype Entry = Entry(route: Route, amount: real, row: Row)

  function Weighted(wt: real, normScore: real): real {
    wt * normScore
  }

  function RowEntries(route: Route, wt: real, rows: seq<Row>): seq<Entry> {
    if rows == [] then []
    else
      var n := |rows| - 1;
      RowEntries(route, wt, rows[..n]) + [Entry(route, Weighted(wt, rows[n].normScore), rows[n])]
  }

  function EntriesOf(w: Weights): RouteResult -> seq<Entry> {
    (r: RouteResult) => RowEntries(r.route, WeightOf(w, r.route), r.candidates)
  }

  function Entries(results: seq<RouteResult>, w: Weights): seq<Entry> {
    FlatMap(EntriesOf(w), results)
  }

  predicate Mentions(es: seq<Entry>, id: string) {
    exists e <- es :: e.row.chunkId == id
  }

  /** Sum of weight * normScore over the rows of a chunk. */
  function ScoreOf(es: seq<Entry>, id: string): real {
    if es == [] then 0.0
    else
      var e := es[|es| - 1];
      ScoreOf(es[..|es| - 1], id) + if e.row.chunkId == id then e.amount else 0.0
  }

  function AddRoute(hits: seq<Route>, r: Route): seq<Route> {
    if r in hits then hits else hits + [r]
  }

  /** The distinct routes that found a chunk, in order of first appearance. */
  function HitsOf(es: seq<Entry>, id: string): seq<Route> {
    if es == [] then []
    else
      var e, hits := es[|es| - 1], HitsOf(es[..|es| - 1], id);
      if e.row.chunkId == id then AddRoute(hits, e.route) else hits
  }

  function TextOf(es: seq<Entry>, id: string): string {
    if es == [] then ""
    else if es[0].row.chunkId == id then es[0].row.text
    else TextOf(es[1..], id)
  }

  /** What the whole list of rows says about one chunk. */
  function Summary(es: seq<Entry>, id: string): Merged {
    Merged(id, TextOf(es, id), HitsOf(es, id), ScoreOf(es, id))
  }

  ghost predicate UniqueIds(cs: seq<Merged>) {
    forall i, j :: 0 <= i < j < |cs| ==> cs[i].chunkId != cs[j].chunkId
  }

  /** The candidates are the summaries of exactly the chunks the rows mention, each once. */
  ghost predicate Summarises(cs: seq<Merged>, es: seq<Entry>) {
    && UniqueIds(cs)
    && (forall c <- cs :: Mentions(es, c.chunkId) && c == Summary(es, c.chunkId))
    && forall e <- es :: Summary(es, e.row.chunkId) in cs
  }

  /** Being a summary fixes the candidates up to their order. */
  lemma {:induction false} SummariesArePermutations(a: seq<Merged>, b: seq<Merged>, es: seq<Entry>)
    requires Summarises(a, es) && Summarises(b, es)
    ensures multiset(a) == multiset(b)
  {
    forall c ensures multiset(a)[c] == multiset(b)[c] {
      UniqueCount(a, c);
      UniqueCount(b, c);
    }
  }

  lemma {:induction false} UniqueCount(cs: seq<Merged>, c: Merged)
    requires UniqueIds(cs)
    ensures multiset(cs)[c] == if c in cs then 1 else 0
  {
    if cs != [] {
      UniqueCount(cs[1..], c);
      assert cs == [cs[0]] + cs[1..];
    }
  }

  /* ---------------------------------- sorting --------------------------------- */

  function InsertByScore(c: Merged, cs: seq<Merged>): seq<Merged> {
    if cs == [] || cs[0].combinedScore <= c.combinedScore then [c] + cs
    else [cs[0]] + InsertByScore(c, cs[1..])
  }

  /** `toSorted((a, b) => b.combinedScore - a.combinedScore)`: stable, greatest first. */
  function SortByScore(cs: seq<Merged>): seq<Merged> {
    if cs == [] then [] else InsertByScore(cs[0], SortByScore(cs[1..]))
  }

  ghost predicate Descending(cs: seq<Merged>) {
    forall i, j :: 0 <= i < j < |cs| ==> cs[i].combinedScore >= cs[j].combinedScore
  }

  lemma {:induction false} InsertPermutes(c: Merged, cs: seq<Merged>)
    ensures multiset(InsertByScore(c, cs)) == multiset(cs) + multiset{c}
  {
    if cs != [] && cs[0].combinedScore > c.combinedScore {
      InsertPermutes(c, cs[1..]);
      assert cs == [cs[0]] + cs[1..];
    }
  }

  lemma {:induction false} InsertDescends(c: Merged, cs: seq<Merged>)
    requires Descending(cs)
    ensures Descending(InsertByScore(c, cs))
  {
    if cs != [] && cs[0].combinedScore > c.combinedScore {
      var r := InsertByScore(c, cs[1..]);
      InsertDescends(c, cs[1..]);
      InsertPermutes(c, cs[1..]);
      forall i | 0 <= i < |r| ensures r[i].combinedScore <= cs[0].combinedScore {
        assert r[i] in multiset(r);
        assert r[i] in cs[1..] || r[i] == c;
      }
    }
  }

  lemma {:induction false} SortPermutes(cs: seq<Merged>)
    ensures multiset(SortByScore(cs)) == multiset(cs) && Descending(SortByScore(cs))
  {
    if cs != [] {
      SortPermutes(cs[1..]);
      InsertPermutes(cs[0], SortByScore(cs[1..]));
      InsertDescends(cs[0], SortByScore(cs[1..]));
      assert cs == [cs[0]] + cs[1..];
    }
  }

  lemma {:induction false} PermutationSummarises(cs: seq<Merged>, cs': seq<Merged>, es: seq<Entry>)
    requires Summarises(cs, es) && multiset(cs') == multiset(cs)
    ensures Summarises(cs', es)
  {
    forall c ensures c in cs' <==> c in cs {
      assert c in cs' <==> c in multiset(cs');
      assert c in cs <==> c in multiset(cs);
    }
    forall i, j | 0 <= i < j < |cs'| ensures cs'[i].chunkId != cs'[j].chunkId {
      assert cs'[i] in cs && cs'[j] in cs;
      UniqueCount(cs, cs'[i]);
      CountedOnce(cs', i, j);
    }
  }

  lemma {:induction false} CountedOnce(cs: seq<Merged>, i: nat, j: nat)
    requires i < j < |cs| && multiset(cs)[cs[i]] <= 1
    ensures cs[i] != cs[j]
  {
    var a, b, c := cs[..i], cs[i + 1..j], cs[j + 1..];
    assert cs == a + [cs[i]] + b + [cs[j]] + c;
    assert multiset(cs) == multiset(a) + multiset{cs[i]} + multiset(b) + multiset{cs[j]} + multiset(c);
  }

  /* ---------------------------------- mergeRoutes ------------------------------ */

  function IndexOfId(cs: seq<Merged>, id: string): (r: Option<nat>)
    ensures r.Some? ==> r.value < |cs| && cs[r.value].chunkId == id
    ensures r.None? ==> forall c <- cs :: c.chunkId != id
  {
    if cs == [] then None
    else if cs[|cs| - 1].chunkId == id then Some(|cs| - 1)
    else IndexOfId(cs[..|cs| - 1], id)
  }

  /** One turn of the inner loop: add to the chunk's candidate or insert one. */
  function Absorb(cs: seq<Merged>, e: Entry): seq<Merged> {
    match IndexOfId(cs, e.row.chunkId)
    case None => cs + [Merged(e.row.chunkId, e.row.text, [e.route], e.amount)]
    case Some(i) =>
      cs[i := cs[i].(combinedScore := cs[i].combinedScore + e.amount, hits := AddRoute(cs[i].hits, e.route))]
  }

  function AbsorbAll(es: seq<Entry>): seq<Merged> {
    if es == [] then [] else Absorb(AbsorbAll(es[..|es| - 1]), es[|es| - 1])
  }

  function MergeOf(results: seq<RouteResult>, w: Weights): seq<Merged> {
    SortByScore(AbsorbAll(Entries(results, w)))
  }

  method MergeRoutes(results: seq<RouteResult>, w: Weights) returns (merged: seq<Merged>)
    ensures merged == MergeOf(results, w)
  {
    var byId: seq<Merged> := [];
    for n := 0 to |results|
      invariant byId == AbsorbAll(Entries(results[..n], w))
    {
      FlatMapSnoc(EntriesOf(w), results[..n], results[n]);
      assert results[..n + 1] == results[..n] + [results[n]];
      byId := AbsorbCandidates(byId, results[n], w, Entries(results[..n], w));
    }
    assert results[..|results|] == results;
    merged := SortByScore(byId);
  }

  /** The inner loop of `mergeRoutes`, over one route's candidates. */
  method AbsorbCandidates(before: seq<Merged>, result: RouteResult, w: Weights, ghost done: seq<Entry>)
      returns (byId: seq<Merged>)
    requires before == AbsorbAll(done)
    ensures byId == AbsorbAll(done + EntriesOf(w)(result))
  {
    var route, wt, candidates := result.route, WeightOf(w, result.route), result.candidates;
    byId := before;
    assert done + [] == done;
    for m := 0 to |candidates|
      invariant byId == AbsorbAll(done + RowEntries(route, wt, candidates[..m]))
    {
      var c := candidates[m];
      AbsorbNext(done, route, wt, candidates, m);
      byId := AbsorbCandidate(byId, route, wt, c);
    }
    assert candidates[..|candidates|] == candidates;
  }

  lemma {:induction false} AbsorbNext(done: seq<Entry>, route: Route, wt: real, rows: seq<Row>, m: nat)
    requires m < |rows|
    ensures AbsorbAll(done + RowEntries(route, wt, rows[..m + 1]))
         == Absorb(AbsorbAll(done + RowEntries(route, wt, rows[..m])), Entry(route, Weighted(wt, rows[m].normScore), rows[m]))
  {
    var es, e := RowEntries(route, wt, rows[..m]), Entry(route, Weighted(wt, rows[m].normScore), rows[m]);
    assert rows[..m + 1][..m] == rows[..m];
    assert RowEntries(route, wt, rows[..m + 1]) == es + [e];
    assert done + (es + [e]) == done + es + [e];
  }

  /** Its body. */
  method AbsorbCandidate(before: seq<Merged>, route: Route, wt: real, c: Row) returns (byId: seq<Merged>)
    ensures byId == Absorb(before, Entry(route, Weighted(wt, c.normScore), c))
  {
    byId := before;
    var amount := Weighted(wt, c.normScore);
    var existing := IndexOfId(byId, c.chunkId);
    if existing.Some? {
      var i := existing.value;
      byId := byId[i := byId[i].(combinedScore := byId[i].combinedScore + amount)];
      if route !in byId[i].hits {
        byId := byId[i := byId[i].(hits := byId[i].hits + [route])];
      }
      assert byId[i] == before[i].(combinedScore := before[i].combinedScore + amount, hits := AddRoute(before[i].hits, route));
      assert byId == before[i := byId[i]];
    } else {
      byId := byId + [Merged(c.chunkId, c.text, [route], amount)];
    }
  }

  lemma {:induction false} SummarySnoc(es: seq<Entry>, e: Entry, id: string)
    ensures Summary(es + [e], id) ==
            if e.row.chunkId != id then Summary(es, id)
            else Merged(id, if Mentions(es, id) then TextOf(es, id) else e.row.text,
                        AddRoute(HitsOf(es, id), e.route), ScoreOf(es, id) + e.amount)
  {
    assert (es + [e])[..|es|] == es;
    TextOfAppend(es, [e], id);
    if !Mentions(es, id) { UnmentionedIsEmpty(es, id); }
    assert TextOf([e], id) == if e.row.chunkId == id then e.row.text else TextOf([], id);
  }

  lemma {:induction false} TextOfAppend(es: seq<Entry>, fs: seq<Entry>, id: string)
    ensures TextOf(es + fs, id) == if Mentions(es, id) then TextOf(es, id) else TextOf(fs, id)
  {
    if es == [] {
      assert es + fs == fs;
    } else {
      TextOfAppend(es[1..], fs, id);
      assert (es + fs)[1..] == es[1..] + fs;
      assert forall e :: e in es <==> e == es[0] || e in es[1..];
    }
  }

  lemma {:induction false} UnmentionedIsEmpty(es: seq<Entry>, id: string)
    requires !Mentions(es, id)
    ensures Summary(es, id) == Merged(id, "", [], 0.0)
  {
    if es != [] {
      var init, e := es[..|es| - 1], es[|es| - 1];
      assert e in es && es == init + [e];
      UnmentionedIsEmpty(init, id);
      TextOfAppend(init, [e], id);
      assert TextOf([e], id) == TextOf([], id);
    }
  }

  lemma {:induction false} AbsorbSummarises(cs: seq<Merged>, es: seq<Entry>, e: Entry)
    requires Summarises(cs, es)
    ensures Summarises(Absorb(cs, e), es + [e])
  {
    var id, es', cs' := e.row.chunkId, es + [e], Absorb(cs, e);
    forall d { SummarySnoc(es, e, d); }
    assert e in es';
    match IndexOfId(cs, id)
    case None =>
      forall f <- es ensures f.row.chunkId != id { assert Summary(es, f.row.chunkId) in cs; }
      UnmentionedIsEmpty(es, id);
      assert cs'[|cs|] == Summary(es', id);
    case Some(i) =>
      assert cs[i] in cs;
      assert cs'[i] == Summary(es', id);
      forall c <- cs | c.chunkId != id ensures c in cs' {
        var j :| 0 <= j < |cs| && cs[j] == c;
        assert cs'[j] == c;
      }
  }

  /** A merge holds one candidate per chunk found, with the summed weighted score, exactly the
      routes that found it, and the text of its first row, greatest score first. */
  lemma {:induction false} MergeSummarises(results: seq<RouteResult>, w: Weights)
    ensures Summarises(MergeOf(results, w), Entries(results, w)) && Descending(MergeOf(results, w))
  {
    var es := Entries(results, w);
    AbsorbAllSummarises(es);
    SortPermutes(AbsorbAll(es));
    PermutationSummarises(AbsorbAll(es), MergeOf(results, w), es);
  }

  lemma {:induction false} AbsorbAllSummarises(es: seq<Entry>)
    ensures Summarises(AbsorbAll(es), es)
  {
    if es != [] {
      AbsorbAllSummarises(es[..|es| - 1]);
      AbsorbSummarises(AbsorbAll(es[..|es| - 1]), es[..|es| - 1], es[|es| - 1]);
      assert es == es[..|es| - 1] + [es[|es| - 1]];
    }
  }

  /* ------------------------------ the second stage ---------------------------- */

  function AddRoutes(hits: seq<Route>, more: seq<Route>): seq<Route> {
    if more == [] then hits else AddRoute(AddRoutes(hits, more[..|more| - 1]), more[|more| - 1])
  }

  /** The router folds one semantic candidate into the structured ones. */
  function FoldIn(all: seq<Merged>, c: Merged): seq<Merged> {
    match IndexOfId(all, c.chunkId)
    case None => all + [c]
    case Some(i) =>
      all[i := all[i].(combinedScore := all[i].combinedScore + c.combinedScore, hits := AddRoutes(all[i].hits, c.hits))]
  }

  function FoldAll(all: seq<Merged>, cs: seq<Merged>): seq<Merged> {
    if cs == [] then all else FoldIn(FoldAll(all, cs[..|cs| - 1]), cs[|cs| - 1])
  }

  method FoldSemantic(merged: seq<Merged>, semanticResults: seq<Merged>) returns (all: seq<Merged>)
    ensures all == FoldAll(merged, semanticResults)
  {
    all := merged;
    for n := 0 to |semanticResults|
      invariant all == FoldAll(merged, semanticResults[..n])
    {
      var c := semanticResults[n];
      assert semanticResults[..n + 1][..n] == semanticResults[..n];
      var existing := IndexOfId(all, c.chunkId);
      if existing.Some? {
        var hits := AddHits(all[existing.value].hits, c.hits);
        all := all[existing.value := all[existing.value].(
          combinedScore := all[existing.value].combinedScore + c.combinedScore, hits := hits)];
      } else {
        all := all + [c];
      }
    }
    assert semanticResults[..|semanticResults|] == semanticResults;
  }

  method AddHits(hits: seq<Route>, more: seq<Route>) returns (r: seq<Route>)
    ensures r == AddRoutes(hits, more)
  {
    r := hits;
    for n := 0 to |more|
      invariant r == AddRoutes(hits, more[..n])
    {
      assert more[..n + 1][..n] == more[..n];
      if more[n] !in r { r := r + [more[n]]; }
    }
    assert more[..|more|] == more;
  }

  /** Summaries of two lists of rows combine into the summary of both. */
  function Combine(a: Merged, b: Merged): Merged {
    a.(hits := AddRoutes(a.hits, b.hits), combinedScore := a.combinedScore + b.combinedScore)
  }

  lemma {:induction false} AddRoutesSnoc(hits: seq<Route>, more: seq<Route>, r: Route)
    ensures AddRoutes(hits, AddRoute(more, r)) == AddRoute(AddRoutes(hits, more), r)
    ensures forall x :: x in hits || x in more ==> x in AddRoutes(hits, more)
  {
    AddRoutesContains(hits, more);
    if r !in more { assert (more + [r])[..|more|] == more; }
  }

  lemma {:induction false} AddRoutesContains(hits: seq<Route>, more: seq<Route>)
    ensures forall x :: x in AddRoutes(hits, more) <==> x in hits || x in more
  {
    if more != [] {
      AddRoutesContains(hits, more[..|more| - 1]);
      assert more == more[..|more| - 1] + [more[|more| - 1]];
    }
  }

  lemma {:induction false} AppendedSummary(a: seq<Entry>, b: seq<Entry>, id: string)
    ensures HitsOf(a + b, id) == AddRoutes(HitsOf(a, id), HitsOf(b, id))
    ensures ScoreOf(a + b, id) == ScoreOf(a, id) + ScoreOf(b, id)
  {
    if b == [] {
      assert a + b == a;
    } else {
      var init, e := b[..|b| - 1], b[|b| - 1];
      AppendedSummary(a, init, id);
      assert (a + b)[..|a + b| - 1] == a + init;
      AddRoutesSnoc(HitsOf(a, id), HitsOf(init, id), e.route);
    }
  }

  lemma {:induction false} CombinedSummary(a: seq<Entry>, b: seq<Entry>, id: string)
    ensures Mentions(a, id) && Mentions(b, id) ==> Summary(a + b, id) == Combine(Summary(a, id), Summary(b, id))
    ensures Mentions(a, id) && !Mentions(b, id) ==> Summary(a + b, id) == Summary(a, id)
    ensures !Mentions(a, id) ==> Summary(a + b, id) == Summary(b, id)
  {
    AppendedSummary(a, b, id);
    TextOfAppend(a, b, id);
    if !Mentions(b, id) { UnmentionedIsEmpty(b, id); }
    if !Mentions(a, id) {
      UnmentionedIsEmpty(a, id);
      AddRoutesToNone(HitsOf(b, id));
      HitsDistinct(b, id);
    }
  }

  lemma {:induction false} AddRoutesToNone(more: seq<Route>)
    ensures DistinctRoutes(more) ==> AddRoutes([], more) == more
  {
    if more != [] {
      var init := more[..|more| - 1];
      AddRoutesToNone(init);
      assert more == init + [more[|more| - 1]];
    }
  }

  ghost predicate DistinctRoutes(rs: seq<Route>) {
    forall i, j :: 0 <= i < j < |rs| ==> rs[i] != rs[j]
  }

  lemma {:induction false} HitsDistinct(es: seq<Entry>, id: string)
    ensures DistinctRoutes(HitsOf(es, id))
  {
    if es != [] {
      HitsDistinct(es[..|es| - 1], id);
    }
  }

  /** all holds the chunks of a, combined with those of the first candidates of b. */
  ghost predicate Folded(all: seq<Merged>, a: seq<Entry>, b: seq<Entry>, taken: seq<Merged>) {
    && UniqueIds(all)
    && (forall c <- all :: (Mentions(a, c.chunkId) || Summary(b, c.chunkId) in taken)
          && c == if Summary(b, c.chunkId) in taken then Summary(a + b, c.chunkId) else Summary(a, c.chunkId))
    && (forall e <- a :: exists c <- all :: c.chunkId == e.row.chunkId)
    && forall t <- taken :: exists c <- all :: c.chunkId == t.chunkId
  }

  lemma {:induction false} FoldInKeepsIds(all: seq<Merged>, t: Merged)
    requires UniqueIds(all)
    ensures var all' := FoldIn(all, t);
            && UniqueIds(all') && (exists c <- all' :: c.chunkId == t.chunkId)
            && (forall c <- all :: exists c' <- all' :: c'.chunkId == c.chunkId)
            && (forall c <- all' :: c.chunkId != t.chunkId ==> c in all)
  {
    var all' := FoldIn(all, t);
    forall c <- all ensures exists c' <- all' :: c'.chunkId == c.chunkId {
      var j :| 0 <= j < |all| && all[j] == c;
      assert all'[j] in all' && all'[j].chunkId == c.chunkId;
    }
    match IndexOfId(all, t.chunkId)
    case None => assert all'[|all|] in all';
    case Some(i) => assert all'[i] in all';
  }

  lemma {:induction false} FoldInCombines(all: seq<Merged>, a: seq<Entry>, b: seq<Entry>, taken: seq<Merged>, t: Merged, c: Merged)
    requires Folded(all, a, b, taken) && t == Summary(b, t.chunkId) && Mentions(b, t.chunkId) && t !in taken
    requires c in FoldIn(all, t) && c.chunkId == t.chunkId
    ensures c == Summary(a + b, t.chunkId)
  {
    CombinedSummary(a, b, t.chunkId);
    match IndexOfId(all, t.chunkId)
    case None =>
      forall e <- a ensures e.row.chunkId != t.chunkId {
        var d :| d in all && d.chunkId == e.row.chunkId;
      }
      assert !Mentions(a, t.chunkId);
    case Some(i) =>
      assert all[i] in all && all[i] == Summary(a, t.chunkId) && Mentions(a, t.chunkId);
      forall j | 0 <= j < |all| && j != i ensures all[j].chunkId != t.chunkId {}
  }

  lemma {:induction false} FoldInKeeps(all: seq<Merged>, a: seq<Entry>, b: seq<Entry>, taken: seq<Merged>, t: Merged)
    requires Folded(all, a, b, taken) && t == Summary(b, t.chunkId) && Mentions(b, t.chunkId) && t !in taken
    ensures Folded(FoldIn(all, t), a, b, taken + [t])
  {
    var all' := FoldIn(all, t);
    FoldInKeepsIds(all, t);
    forall c <- all'
      ensures Mentions(a, c.chunkId) || Summary(b, c.chunkId) in taken + [t]
      ensures c == if Summary(b, c.chunkId) in taken + [t] then Summary(a + b, c.chunkId) else Summary(a, c.chunkId)
    {
      if c.chunkId == t.chunkId { FoldInCombines(all, a, b, taken, t, c); }
      assert Summary(b, c.chunkId) == t ==> c.chunkId == t.chunkId;
    }
    forall e <- a ensures exists c <- all' :: c.chunkId == e.row.chunkId {
      var d :| d in all && d.chunkId == e.row.chunkId;
    }
    forall u <- taken + [t] ensures exists c <- all' :: c.chunkId == u.chunkId {
      if u != t { var d :| d in all && d.chunkId == u.chunkId; }
    }
  }

  /** Merging the structured routes, merging the semantic ones, and folding the second into the
      first yields the same candidates as one merge over all of them. */
  lemma {:induction false} TwoStagesAreOneMerge(structured: seq<RouteResult>, semantic: seq<RouteResult>, w: Weights)
    ensures multiset(FoldAll(MergeOf(structured, w), MergeOf(semantic, w)))
         == multiset(MergeOf(structured + semantic, w))
    ensures Summarises(FoldAll(MergeOf(structured, w), MergeOf(semantic, w)), Entries(structured + semantic, w))
  {
    var a, b := Entries(structured, w), Entries(semantic, w);
    var first, second := MergeOf(structured, w), MergeOf(semantic, w);
    MergeSummarises(structured, w);
    MergeSummarises(semantic, w);
    MergeSummarises(structured + semantic, w);
    FlatMapAppend(EntriesOf(w), structured, semantic);
    FoldAllKeeps(first, a, b, second, |second|);
    assert second[..|second|] == second;
    FoldedSummarises(FoldAll(first, second), a, b, second);
    SummariesArePermutations(FoldAll(first, second), MergeOf(structured + semantic, w), a + b);
  }

  lemma {:induction false} FoldAllKeeps(first: seq<Merged>, a: seq<Entry>, b: seq<Entry>, second: seq<Merged>, n: nat)
    requires Summarises(first, a) && Summarises(second, b) && n <= |second|
    ensures Folded(FoldAll(first, second[..n]), a, b, second[..n])
  {
    if n == 0 {
      forall e <- a ensures exists c <- first :: c.chunkId == e.row.chunkId { assert Summary(a, e.row.chunkId) in first; }
    } else {
      FoldAllKeeps(first, a, b, second, n - 1);
      assert second[..n][..n - 1] == second[..n - 1] && second[..n] == second[..n - 1] + [second[n - 1]];
      assert second[n - 1] in second;
      FoldInKeeps(FoldAll(first, second[..n - 1]), a, b, second[..n - 1], second[n - 1]);
    }
  }

  lemma {:induction false} FoldedSummarises(all: seq<Merged>, a: seq<Entry>, b: seq<Entry>, second: seq<Merged>)
    requires Folded(all, a, b, second) && Summarises(second, b)
    ensures Summarises(all, a + b)
  {
    forall c <- all ensures Mentions(a + b, c.chunkId) && c == Summary(a + b, c.chunkId) {
      CombinedSummary(a, b, c.chunkId);
      if Mentions(a, c.chunkId) {
        var e :| e in a && e.row.chunkId == c.chunkId;
        assert e in a + b;
      } else {
        var e :| e in b && e.row.chunkId == c.chunkId;
        assert e in a + b;
      }
      if Mentions(b, c.chunkId) {
        var e :| e in b && e.row.chunkId == c.chunkId;
        assert Summary(b, e.row.chunkId) in second;
      }
    }
    forall e <- a + b ensures Summary(a + b, e.row.chunkId) in all {
      if e in b { assert Summary(b, e.row.chunkId) in second; }
      var c :| c in all && c.chunkId == e.row.chunkId;
    }
  }

  /* -------------------------------- score bounds ------------------------------ */

  /** Each route answers at most once, and names a chunk at most once, with a score in [0, 1]. */
  ghost predicate OneRowPerChunk(results: seq<RouteResult>) {
    forall r <- results ::
      && (forall i, j :: 0 <= i < j < |r.candidates| ==> r.candidates[i].chunkId != r.candidates[j].chunkId)
      && forall c <- r.candidates :: 0.0 <= c.normScore <= 1.0
  }

  function TotalWeight(results: seq<RouteResult>, w: Weights): real {
    if results == [] then 0.0 else TotalWeight(results[..|results| - 1], w) + WeightOf(w, results[|results| - 1].route)
  }

  lemma {:induction false} ScaledWithin(wt: real, x: real)
    requires wt >= 0.0 && 0.0 <= x <= 1.0
    ensures 0.0 <= Weighted(wt, x) <= wt
  {
    assert wt * (1.0 - x) >= 0.0;
  }

  lemma {:induction false} RowEntriesShape(route: Route, wt: real, rows: seq<Row>)
    requires wt >= 0.0 && forall c <- rows :: 0.0 <= c.normScore <= 1.0
    ensures var es := RowEntries(route, wt, rows);
            |es| == |rows| && forall i :: 0 <= i < |es| ==> es[i].row == rows[i] && 0.0 <= es[i].amount <= wt
  {
    if rows != [] {
      var n := |rows| - 1;
      var x, init := rows[n].normScore, RowEntries(route, wt, rows[..n]);
      assert rows[n] in rows;
      RowEntriesShape(route, wt, rows[..n]);
      ScaledWithin(wt, x);
      assert RowEntries(route, wt, rows) == init + [Entry(route, Weighted(wt, x), rows[n])];
    }
  }

  lemma {:induction false} OneRouteScore(es: seq<Entry>, wt: real, id: string)
    requires wt >= 0.0 && forall e <- es :: 0.0 <= e.amount <= wt
    requires forall i, j :: 0 <= i < j < |es| ==> es[i].row.chunkId != es[j].row.chunkId
    ensures 0.0 <= ScoreOf(es, id) <= wt
  {
    if es != [] {
      var init, e := es[..|es| - 1], es[|es| - 1];
      assert e in es && es == init + [e];
      if e.row.chunkId == id {
        forall f <- init ensures f.row.chunkId != id {
          var i :| 0 <= i < |init| && init[i] == f;
          assert es[i] == f && es[|es| - 1] == e;
        }
        UnmentionedIsEmpty(init, id);
      } else {
        OneRouteScore(init, wt, id);
      }
    }
  }

  /** A combined score lies between 0 and the total weight of the routes that ran. */
  lemma {:induction false} ScoreWithinWeights(results: seq<RouteResult>, w: Weights, id: string)
    requires OneRowPerChunk(results) && forall r <- results :: WeightOf(w, r.route) >= 0.0
    ensures 0.0 <= ScoreOf(Entries(results, w), id) <= TotalWeight(results, w)
  {
    if results != [] {
      var init, r := results[..|results| - 1], results[|results| - 1];
      assert results == init + [r] && r in results;
      ScoreWithinWeights(init, w, id);
      FlatMapSnoc(EntriesOf(w), init, r);
      AppendedSummary(Entries(init, w), EntriesOf(w)(r), id);
      RowEntriesShape(r.route, WeightOf(w, r.route), r.candidates);
      OneRouteScore(EntriesOf(w)(r), WeightOf(w, r.route), id);
    }
  }

  /** The order in which the router merges its routes. */
  const STRUCTURED_ORDER := [Anchor, EntityRef, TimeBucket, ConceptTag, Category, GraphWalk]
  const SEMANTIC_ORDER := [Semantic, FullText, Trgm]

  ghost predicate RoutesAre(results: seq<RouteResult>, order: seq<Route>) {
    |results| == |order| && forall i :: 0 <= i < |order| ==> results[i].route == order[i]
  }

  function WeightOfFirst(order: seq<Route>, n: nat): real
    requires n <= |order|
  {
    if n == 0 then 0.0 else WeightOfFirst(order, n - 1) + DefaultWeight(order[n - 1])
  }

  lemma {:induction false} DefaultTotal(rs: seq<RouteResult>, order: seq<Route>, n: nat)
    requires RoutesAre(rs, order) && n <= |order|
    ensures TotalWeight(rs[..n], map[]) == WeightOfFirst(order, n)
  {
    if n > 0 {
      DefaultTotal(rs, order, n - 1);
      assert rs[..n][..n - 1] == rs[..n - 1];
    }
  }

  lemma {:induction false} NineWeights(order: seq<Route>)
    requires order == [Anchor, EntityRef, TimeBucket, ConceptTag, Category, GraphWalk, Semantic, FullText, Trgm]
    ensures WeightOfFirst(order, 9) == 7.0
  {
    assert WeightOfFirst(order, 1) == 1.2;
    assert WeightOfFirst(order, 3) == 2.8;
    assert WeightOfFirst(order, 5) == 3.9;
    assert WeightOfFirst(order, 7) == 5.8;
  }

  /** With the default weights the nine routes weigh 7.0 in all, so every score is in [0, 7.0]. */
  lemma {:induction false} DefaultScoresAtMostSeven(rs: seq<RouteResult>, id: string)
    requires RoutesAre(rs, STRUCTURED_ORDER + SEMANTIC_ORDER) && OneRowPerChunk(rs)
    ensures 0.0 <= ScoreOf(Entries(rs, map[]), id) <= 7.0
  {
    ScoreWithinWeights(rs, map[], id);
    DefaultTotal(rs, STRUCTURED_ORDER + SEMANTIC_ORDER, 9);
    assert rs[..9] == rs;
    NineWeights(STRUCTURED_ORDER + SEMANTIC_ORDER);
  }
}
