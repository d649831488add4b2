/** What a merged candidate says, read off the rows the routes returned (src/recall/routes.ts). */
module RouteScores {
  import opened SeqTools
  import opened Ranking

  /** The weights that apply where the caller gives none. */
  const WEIGHTS: Weights := map[
    Semantic := 1.0, FullText := 0.7, Trgm := 0.5, ConceptTag := 0.8, EntityRef := 1.0,
    TimeBucket := 0.6, Anchor := 1.2, Category := 0.3, GraphWalk := 0.9]

  /** The caller's weight for a route, or its own. */
  function WeightIn(w: Weights, r: Route): real {
    if r in w then w[r] else if r in WEIGHTS then WEIGHTS[r] else 0.5
  }

  /** Weight times score, summed over the rows of a chunk in one route's answer. */
  function RowSum(wt: real, rows: seq<Row>, id: string): real {
    if rows == [] then 0.0
    else
      var c := rows[|rows| - 1];
      RowSum(wt, rows[..|rows| - 1], id) + if c.chunkId == id then wt * c.normScore else 0.0
  }

  /** Over all routes. */
  function WeightedSum(rs: seq<RouteResult>, w: Weights, id: string): real {
    if rs == [] then 0.0
    else
      var r := rs[|rs| - 1];
      WeightedSum(rs[..|rs| - 1], w, id) + RowSum(WeightIn(w, r.route), r.candidates, id)
  }

  lemma {:induction false} RouteScore(route: Route, wt: real, rows: seq<Row>, id: string)
    ensures ScoreOf(RowEntries(route, wt, rows), id) == RowSum(wt, rows, id)
  {
    if rows != [] {
      var n := |rows| - 1;
      var init, e := RowEntries(route, wt, rows[..n]), Entry(route, Weighted(wt, rows[n].normScore), rows[n]);
      RouteScore(route, wt, rows[..n], id);
      assert RowEntries(route, wt, rows) == init + [e] && (init + [e])[..|init|] == init;
    }
  }

  lemma {:induction false} WeightsAgree(w: Weights, r: Route)
    ensures WeightOf(w, r) == WeightIn(w, r)
  {
  }

  lemma {:induction false} ScoreSnoc(init: seq<RouteResult>, r: RouteResult, w: Weights, id: string)
    ensures ScoreOf(Entries(init + [r], w), id) == ScoreOf(Entries(init, w), id) + RowSum(WeightIn(w, r.route), r.candidates, id)
  {
    FlatMapSnoc(EntriesOf(w), init, r);
    AppendedSummary(Entries(init, w), EntriesOf(w)(r), id);
    RouteScore(r.route, WeightOf(w, r.route), r.candidates, id);
    WeightsAgree(w, r.route);
  }

  /** A chunk's score is the weighted sum of the scores its rows have. */
  lemma {:induction false} ScoreIsWeightedSum(rs: seq<RouteResult>, w: Weights, id: string)
    ensures ScoreOf(Entries(rs, w), id) == WeightedSum(rs, w, id)
  {
    if rs != [] {
      var init, r := rs[..|rs| - 1], rs[|rs| - 1];
      assert rs == init + [r];
      ScoreIsWeightedSum(init, w, id);
      ScoreSnoc(init, r, w, id);
    }
  }

  /** Some of these rows is about the chunk. */
  ghost predicate Found(rows: seq<Row>, id: string) {
    exists c <- rows :: c.chunkId == id
  }

  lemma {:induction false} FoundSnoc(rows: seq<Row>, c: Row, id: string)
    ensures Found(rows + [c], id) <==> Found(rows, id) || c.chunkId == id
  {
    assert forall d :: d in rows + [c] <==> d in rows || d == c;
  }

  lemma {:induction false} MentionsSnoc(es: seq<Entry>, e: Entry, id: string)
    ensures Mentions(es + [e], id) <==> Mentions(es, id) || e.row.chunkId == id
  {
    assert forall f :: f in es + [e] <==> f in es || f == e;
  }

  lemma {:induction false} RowEntriesSnoc(route: Route, wt: real, rows: seq<Row>, c: Row)
    ensures RowEntries(route, wt, rows + [c]) == RowEntries(route, wt, rows) + [Entry(route, Weighted(wt, c.normScore), c)]
  {
    assert (rows + [c])[..|rows|] == rows;
  }

  lemma {:induction false} HitsOfSnoc(es: seq<Entry>, e: Entry, id: string)
    ensures HitsOf(es + [e], id) == if e.row.chunkId == id then AddRoute(HitsOf(es, id), e.route) else HitsOf(es, id)
  {
    assert (es + [e])[..|es|] == es;
  }

  lemma {:induction false} RouteHits(route: Route, wt: real, rows: seq<Row>, id: string)
    ensures HitsOf(RowEntries(route, wt, rows), id) == if Found(rows, id) then [route] else []
    ensures Mentions(RowEntries(route, wt, rows), id) <==> Found(rows, id)
  {
    if rows != [] {
      var init, c := rows[..|rows| - 1], rows[|rows| - 1];
      var e := Entry(route, Weighted(wt, c.normScore), c);
      assert rows == init + [c];
      RouteHits(route, wt, init, id);
      RowEntriesSnoc(route, wt, init, c);
      HitsOfSnoc(RowEntries(route, wt, init), e, id);
      FoundSnoc(init, c, id);
      MentionsSnoc(RowEntries(route, wt, init), e, id);
    }
  }

  /** The route's answer, or any answer, holds a row about the chunk. */
  ghost predicate FoundBy(rs: seq<RouteResult>, route: Route, id: string) {
    exists r <- rs :: r.route == route && Found(r.candidates, id)
  }

  ghost predicate FoundAny(rs: seq<RouteResult>, id: string) {
    exists r <- rs :: Found(r.candidates, id)
  }

  lemma {:induction false} FoundBySnoc(rs: seq<RouteResult>, x: RouteResult, id: string)
    ensures forall route :: FoundBy(rs + [x], route, id) <==> FoundBy(rs, route, id) || (route == x.route && Found(x.candidates, id))
    ensures FoundAny(rs + [x], id) <==> FoundAny(rs, id) || Found(x.candidates, id)
  {
    assert forall r :: r in rs + [x] <==> r in rs || r == x;
  }

  lemma {:induction false} HitsSnoc(init: seq<RouteResult>, r: RouteResult, w: Weights, id: string)
    ensures var before, all := Entries(init, w), Entries(init + [r], w);
            && (forall route :: route in HitsOf(all, id) <==> route in HitsOf(before, id) || (route == r.route && Found(r.candidates, id)))
            && (Mentions(all, id) <==> Mentions(before, id) || Found(r.candidates, id))
  {
    var a, b := Entries(init, w), EntriesOf(w)(r);
    FlatMapSnoc(EntriesOf(w), init, r);
    AppendedSummary(a, b, id);
    RouteHits(r.route, WeightOf(w, r.route), r.candidates, id);
    AddRoutesContains(HitsOf(a, id), HitsOf(b, id));
    assert forall e :: e in a + b <==> e in a || e in b;
  }

  /** The routes of a candidate are those that found it, each once. */
  lemma {:induction false} HitsAreFinders(rs: seq<RouteResult>, w: Weights, id: string)
    ensures var hits := HitsOf(Entries(rs, w), id);
            && (forall route :: route in hits <==> FoundBy(rs, route, id))
            && forall i, j :: 0 <= i < j < |hits| ==> hits[i] != hits[j]
    ensures Mentions(Entries(rs, w), id) <==> FoundAny(rs, id)
  {
    HitsDistinct(Entries(rs, w), id);
    if rs != [] {
      var init, r := rs[..|rs| - 1], rs[|rs| - 1];
      assert rs == init + [r];
      HitsAreFinders(init, w, id);
      FoundBySnoc(init, r, id);
      HitsSnoc(init, r, w, id);
    }
  }

  /** The text a candidate shows: that of the first row about it, in the order of the routes. */
  function FirstText(rs: seq<RouteResult>, id: string): Option<string> {
    if rs == [] then None
    else
      var earlier := FirstText(rs[..|rs| - 1], id);
      if earlier.Some? then earlier else RowText(rs[|rs| - 1].candidates, id)
  }

  function RowText(rows: seq<Row>, id: string): Option<string> {
    if rows == [] then None
    else
      var earlier := RowText(rows[..|rows| - 1], id);
      if earlier.Some? then earlier else if rows[|rows| - 1].chunkId == id then Some(rows[|rows| - 1].text) else None
  }

  lemma {:induction false} RouteText(route: Route, wt: real, rows: seq<Row>, id: string)
    ensures RowText(rows, id).Some? <==> Found(rows, id)
    ensures RowText(rows, id).Some? ==> TextOf(RowEntries(route, wt, rows), id) == RowText(rows, id).value
  {
    if rows != [] {
      var n := |rows| - 1;
      var init, e := RowEntries(route, wt, rows[..n]), Entry(route, Weighted(wt, rows[n].normScore), rows[n]);
      RouteText(route, wt, rows[..n], id);
      RouteHits(route, wt, rows[..n], id);
      assert rows == rows[..n] + [rows[n]];
      FoundSnoc(rows[..n], rows[n], id);
      TextOfAppend(init, [e], id);
    }
  }

  lemma {:induction false} TextIsFirst(rs: seq<RouteResult>, w: Weights, id: string)
    ensures FirstText(rs, id).Some? <==> Mentions(Entries(rs, w), id)
    ensures FirstText(rs, id).Some? ==> TextOf(Entries(rs, w), id) == FirstText(rs, id).value
  {
    if rs != [] {
      var init, r := rs[..|rs| - 1], rs[|rs| - 1];
      var a, b := Entries(init, w), EntriesOf(w)(r);
      assert rs == init + [r];
      TextIsFirst(init, w, id);
      HitsSnoc(init, r, w, id);
      FlatMapSnoc(EntriesOf(w), init, r);
      TextOfAppend(a, b, id);
      RouteText(r.route, WeightOf(w, r.route), r.candidates, id);
    }
  }

  /** What one merge says of a chunk, in the terms of the rows alone. */
  function Reading(rs: seq<RouteResult>, w: Weights, id: string): (string, real) {
    (if FirstText(rs, id).Some? then FirstText(rs, id).value else "", WeightedSum(rs, w, id))
  }

  /** The candidate for a chunk agrees with the rows about it. */
  ghost predicate Reads(c: Merged, rs: seq<RouteResult>, w: Weights) {
    && (c.text, c.combinedScore) == Reading(rs, w, c.chunkId)
    && forall route :: route in c.hits <==> FoundBy(rs, route, c.chunkId)
  }

  /** The candidates hold exactly the chunks found, each once, and agree with the rows. */
  ghost predicate ReadOff(cs: seq<Merged>, rs: seq<RouteResult>, w: Weights) {
    && UniqueIds(cs) && (forall c <- cs :: Reads(c, rs, w))
    && forall id :: HasId(cs, id) <==> FoundAny(rs, id)
  }

  ghost predicate HasId(cs: seq<Merged>, id: string) {
    exists c <- cs :: c.chunkId == id
  }

  /** A merge holds exactly the chunks some route found, each once, with the first text found for it,
      the weighted sum of its scores, and exactly the routes that found it, greatest score first. */
  lemma {:induction false} MergeReadsRows(rs: seq<RouteResult>, w: Weights)
    ensures ReadOff(MergeOf(rs, w), rs, w) && Descending(MergeOf(rs, w))
  {
    MergeSummarises(rs, w);
    SummaryReads(rs, w, MergeOf(rs, w));
  }

  lemma {:induction false} SummaryReadsOne(rs: seq<RouteResult>, w: Weights, id: string)
    requires Mentions(Entries(rs, w), id)
    ensures Reads(Summary(Entries(rs, w), id), rs, w)
  {
    HitsAreFinders(rs, w, id);
    TextIsFirst(rs, w, id);
    ScoreIsWeightedSum(rs, w, id);
  }

  /** So does any summary of the rows. */
  lemma {:induction false} SummaryReads(rs: seq<RouteResult>, w: Weights, cs: seq<Merged>)
    requires Summarises(cs, Entries(rs, w))
    ensures ReadOff(cs, rs, w)
  {
    var es := Entries(rs, w);
    forall c <- cs ensures Reads(c, rs, w) { SummaryReadsOne(rs, w, c.chunkId); }
    forall id ensures HasId(cs, id) <==> FoundAny(rs, id) {
      HitsAreFinders(rs, w, id);
      if e :| e in es && e.row.chunkId == id { assert Summary(es, e.row.chunkId) in cs; }
    }
  }
}
