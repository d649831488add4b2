/** What a recall is answered with, told by its input, the rows the database returned and the tables
    before it (src/recall/router.ts, src/recall/working-set.ts). */
module RecallContents {
  import opened SeqTools
  import opened Chunks
  import opened Ranking
  import opened RecallTiers
  import Lru
  import Mmr
  import RouteScores
  import Strings

  /* --------------------------- which routes are combined ------------------------ */

  /** The rows of all these routes together. */
  function RowTotal(rs: seq<RouteResult>): nat {
    if rs == [] then 0 else |rs[0].candidates| + RowTotal(rs[1..])
  }

  lemma {:induction false} RowTotalSnoc(rs: seq<RouteResult>, r: RouteResult)
    ensures RowTotal(rs + [r]) == RowTotal(rs) + |r.candidates|
  {
    if rs == [] {
      assert [] + [r] == [r] && [r][1..] == [];
    } else {
      RowTotalSnoc(rs[1..], r);
      assert (rs + [r])[1..] == rs[1..] + [r];
    }
  }

  lemma {:induction false} RowsAreCounted(rs: seq<RouteResult>)
    ensures RowCount(rs) == RowTotal(rs)
  {
    if rs != [] {
      var init, r := rs[..|rs| - 1], rs[|rs| - 1];
      assert rs == init + [r];
      RowsAreCounted(init);
      RowTotalSnoc(init, r);
    }
  }

  /** The routes a fresh recall combines: all of them, unless a precise anchor was given and the
      structured ones returned half of k rows or more. */
  function Combining(k: nat, ans: Answers): seq<RouteResult> {
    if ans.precise && 2 * RowTotal(ans.structured) >= k then ans.structured else ans.structured + ans.semantic
  }

  ghost predicate Superseded(chunks: map<string, Chunk>, id: string) {
    id in chunks && chunks[id].superseded
  }

  /** What a candidate of a recall says: as its rows do, but for a score cut to a fifth when the chunk
      is superseded. */
  ghost predicate Says(chunks: map<string, Chunk>, c: Merged, rs: seq<RouteResult>, w: Weights) {
    var (text, score) := RouteScores.Reading(rs, w, c.chunkId);
    && c.text == text
    && (forall route :: route in c.hits <==> RouteScores.FoundBy(rs, route, c.chunkId))
    && (if Superseded(chunks, c.chunkId) then 5.0 * c.combinedScore == score else c.combinedScore == score)
  }

  lemma {:induction false} CombinedBeforePenalty(k: nat, w: Weights, ans: Answers)
    ensures var rs := Combining(k, ans);
            var structured := MergeOf(ans.structured, w);
            RouteScores.ReadOff(if RunsSemantic(k, ans) then FoldAll(structured, MergeOf(ans.semantic, w)) else structured, rs, w)
  {
    RowsAreCounted(ans.structured);
    if RunsSemantic(k, ans) {
      TwoStagesAreOneMerge(ans.structured, ans.semantic, w);
      RouteScores.SummaryReads(ans.structured + ans.semantic, w, FoldAll(MergeOf(ans.structured, w), MergeOf(ans.semantic, w)));
    } else {
      RouteScores.MergeReadsRows(ans.structured, w);
    }
  }

  lemma {:induction false} PenaltyCutsToFifth(chunks: map<string, Chunk>, c: Merged)
    ensures var p := Penalised(chunks, c);
            && p.chunkId == c.chunkId && p.text == c.text && p.hits == c.hits
            && (if Superseded(chunks, c.chunkId) then 5.0 * p.combinedScore == c.combinedScore else p.combinedScore == c.combinedScore)
  {
  }

  lemma {:induction false} PenaltyKeepsIds(chunks: map<string, Chunk>, cs: seq<Merged>, id: string)
    ensures |PenaliseAll(chunks, cs)| == |cs| && forall i :: 0 <= i < |cs| ==> PenaliseAll(chunks, cs)[i].chunkId == cs[i].chunkId
    ensures RouteScores.HasId(PenaliseAll(chunks, cs), id) <==> RouteScores.HasId(cs, id)
  {
    var all := PenaliseAll(chunks, cs);
    if c :| c in cs && c.chunkId == id { var i :| 0 <= i < |cs| && cs[i] == c; assert all[i] in all; }
    if c :| c in all && c.chunkId == id { var i :| 0 <= i < |all| && all[i] == c; assert cs[i] in cs; }
  }

  lemma {:induction false} PenalisedSays(chunks: map<string, Chunk>, cs: seq<Merged>, rs: seq<RouteResult>, w: Weights, c: Merged)
    requires RouteScores.ReadOff(cs, rs, w) && c in PenaliseAll(chunks, cs)
    ensures Says(chunks, c, rs, w)
  {
    var i :| 0 <= i < |cs| && PenaliseAll(chunks, cs)[i] == c;
    PenaltyCutsToFifth(chunks, cs[i]);
    assert cs[i] in cs && RouteScores.Reads(cs[i], rs, w);
  }

  /** The candidates a fresh recall reranks are exactly the chunks found by the routes it combines,
      each once, with their text, their routes and their weighted scores, cut to a fifth exactly for
      superseded chunks. */
  lemma {:induction false} CandidatesCombineRoutes(chunks: map<string, Chunk>, k: nat, w: Weights, ans: Answers)
    ensures var all, rs := Combined(chunks, k, w, ans), Combining(k, ans);
            && UniqueIds(all)
            && (forall id :: RouteScores.HasId(all, id) <==> RouteScores.FoundAny(rs, id))
            && forall c <- all :: Says(chunks, c, rs, w)
  {
    var rs, structured := Combining(k, ans), MergeOf(ans.structured, w);
    var cs := if RunsSemantic(k, ans) then FoldAll(structured, MergeOf(ans.semantic, w)) else structured;
    CombinedBeforePenalty(k, w, ans);
    PenaltyKeepsIds(chunks, cs, "");
    forall id ensures RouteScores.HasId(PenaliseAll(chunks, cs), id) <==> RouteScores.FoundAny(rs, id) {
      PenaltyKeepsIds(chunks, cs, id);
    }
    forall c <- PenaliseAll(chunks, cs) ensures Says(chunks, c, rs, w) { PenalisedSays(chunks, cs, rs, w, c); }
  }

  /* ------------------------------ what a filter keeps --------------------------- */

  /** ps are increasing positions of xs. */
  ghost predicate Increasing(ps: seq<nat>, n: nat) {
    && (forall j :: 0 <= j < |ps| ==> ps[j] < n)
    && forall i, j :: 0 <= i < j < |ps| ==> ps[i] < ps[j]
  }

  /** The items at these positions, and no others pass. */
  ghost predicate Sieved(kept: seq<Merged>, cs: seq<Merged>, ps: seq<nat>, passes: Merged -> bool) {
    && Increasing(ps, |cs|) && |kept| == |ps|
    && (forall j :: 0 <= j < |ps| ==> kept[j] == cs[ps[j]])
    && forall i: nat :: i < |cs| ==> (i in ps <==> passes(cs[i]))
  }

  lemma {:induction false} SieveDrops(kept: seq<Merged>, cs: seq<Merged>, ps: seq<nat>, passes: Merged -> bool, c: Merged)
    requires Sieved(kept, cs, ps, passes) && !passes(c)
    ensures Sieved(kept, cs + [c], ps, passes)
  {
  }

  lemma {:induction false} SieveTakes(kept: seq<Merged>, cs: seq<Merged>, ps: seq<nat>, passes: Merged -> bool, c: Merged)
    requires Sieved(kept, cs, ps, passes) && passes(c)
    ensures Sieved(kept + [c], cs + [c], ps + [|cs|], passes)
  {
    var n, all, qs := |cs|, cs + [c], ps + [|cs|];
    forall i: nat | i <= n ensures i in qs <==> passes(all[i]) {
      if i < n { assert all[i] == cs[i] && (i in qs <==> i in ps); } else { assert qs[|ps|] == n; }
    }
  }

  lemma {:induction false} SieveSnoc(kept: seq<Merged>, cs: seq<Merged>, ps: seq<nat>, passes: Merged -> bool, c: Merged)
      returns (ps': seq<nat>)
    requires Sieved(kept, cs, ps, passes)
    ensures Sieved(if passes(c) then kept + [c] else kept, cs + [c], ps', passes)
  {
    if passes(c) {
      ps' := ps + [|cs|];
      SieveTakes(kept, cs, ps, passes, c);
    } else {
      ps' := ps;
      SieveDrops(kept, cs, ps, passes, c);
    }
  }

  /** The minimum score leaves, in their order, exactly the candidates that reach it. */
  lemma {:induction false} KeepSieves(cs: seq<Merged>, minScore: real) returns (ps: seq<nat>)
    ensures Sieved(Keep(cs, minScore), cs, ps, (c: Merged) => c.combinedScore >= minScore)
  {
    ps := [];
    if cs != [] {
      var init, c := cs[..|cs| - 1], cs[|cs| - 1];
      var before := KeepSieves(init, minScore);
      assert cs == init + [c];
      ps := SieveSnoc(Keep(init, minScore), init, before, (c: Merged) => c.combinedScore >= minScore, c);
      assert Keep(init, minScore) + [] == Keep(init, minScore);
    }
  }

  /** The privacy filter leaves, in their order, exactly the visible ones. */
  lemma {:induction false} VisibleSieves(cs: seq<Merged>, visible: set<string>) returns (ps: seq<nat>)
    ensures Sieved(KeepVisible(cs, visible), cs, ps, (c: Merged) => c.chunkId in visible)
  {
    ps := [];
    if cs != [] {
      var init, c := cs[..|cs| - 1], cs[|cs| - 1];
      var before := VisibleSieves(init, visible);
      assert cs == init + [c];
      ps := SieveSnoc(KeepVisible(init, visible), init, before, (c: Merged) => c.chunkId in visible, c);
      assert KeepVisible(init, visible) + [] == KeepVisible(init, visible);
    }
  }

  lemma {:induction false} SievesCompose(a: seq<Merged>, b: seq<Merged>, c: seq<Merged>, ps: seq<nat>, qs: seq<nat>,
                                         first: Merged -> bool, second: Merged -> bool) returns (rs: seq<nat>)
    requires Sieved(b, a, ps, first) && Sieved(c, b, qs, second)
    ensures Sieved(c, a, rs, (x: Merged) => first(x) && second(x))
  {
    rs := seq(|qs|, j requires 0 <= j < |qs| => ps[qs[j]]);
    forall i: nat | i < |a| ensures i in rs <==> first(a[i]) && second(a[i]) {
      if i in rs {
        var j :| 0 <= j < |rs| && rs[j] == i;
        assert qs[j] in qs && ps[qs[j]] in ps && b[qs[j]] == a[i];
      }
      if first(a[i]) && second(a[i]) {
        assert i in ps;
        var m :| 0 <= m < |ps| && ps[m] == i;
        assert b[m] == a[i] && m in qs;
        var j :| 0 <= j < |qs| && qs[j] == m;
        assert rs[j] == i;
      }
    }
  }

  /** A fresh recall shows, in the order of the reranked candidates, exactly those that reach the
      minimum score and, for a filtered viewer, are visible to it. */
  lemma {:induction false} FreshSieves(chunks: map<string, Chunk>, input: Input, ans: Answers, picks: seq<nat>) returns (ps: seq<nat>)
    ensures var minScore := if input.minScore.Some? then input.minScore.value else 0.0;
            Sieved(Fresh(chunks, input, ans, picks), Reranked(Combined(chunks, input.K(), input.weights, ans), input.K(), picks), ps,
                   (c: Merged) => c.combinedScore >= minScore && (input.Filtered() ==> c.chunkId in ans.visible))
  {
    var cs := Reranked(Combined(chunks, input.K(), input.weights, ans), input.K(), picks);
    ps := KeepSieves(cs, input.MinScore());
    if input.Filtered() {
      var qs := VisibleSieves(Keep(cs, input.MinScore()), ans.visible);
      ps := SievesCompose(cs, Keep(cs, input.MinScore()), Fresh(chunks, input, ans, picks), ps, qs,
                          (c: Merged) => c.combinedScore >= input.MinScore(), (c: Merged) => c.chunkId in ans.visible);
    }
  }

  /* -------------------------------- searching T0 -------------------------------- */

  /** How relevant a text is to a query: fully if it holds it, else as their words overlap if by more
      than a fifth, and not otherwise; letter case apart. */
  ghost predicate IsRelevance(tx: Texts, query: string, text: string, rel: real) {
    var q, t := tx.lower(query), tx.lower(text);
    var a, b := tx.words(q), tx.words(t);
    if Strings.Contains(t, q) then rel == 1.0
    else if a != {} && b != {} && 5 * |a * b| > |a + b| then rel * |a + b| as real == |a * b| as real
    else rel == 0.0
  }

  lemma {:induction false} TimesGrows(a: real, b: real, y: real)
    requires y > 0.0 && a > b
    ensures a * y > b * y
  {
    assert (a - b) * y > 0.0;
  }

  lemma {:induction false} Quotient(x: real, y: real, c: real)
    requires y > 0.0
    ensures x / y * y == x && (x / y > c <==> x > c * y)
  {
    var r := x / y;
    if r > c { TimesGrows(r, c, y); } else if r < c { TimesGrows(c, r, y); }
  }

  lemma {:induction false} RelevanceIs(tx: Texts, query: string, text: string)
    ensures IsRelevance(tx, query, text, Relevance(tx, query, text))
    ensures 0.0 <= Relevance(tx, query, text) <= 1.0
  {
    var q, t := tx.lower(query), tx.lower(text);
    var a, b := tx.words(q), tx.words(t);
    Strings.IndexOfIsFirst(t, q, 0);
    Mmr.JaccardIsSimilarity(a, b);
    if a != {} && b != {} {
      var x :| x in a;
      assert x in a + b;
      Quotient(|a * b| as real, |a + b| as real, 0.2);
    }
  }

  /** How many entries match the query at all. */
  function MatchCount(tx: Texts, query: string, es: seq<Slot>): nat {
    if es == [] then 0
    else MatchCount(tx, query, es[..|es| - 1]) + if Relevance(tx, query, es[|es| - 1].value.candidate.text) > 0.0 then 1 else 0
  }

  lemma {:induction false} MatchesAreCounted(tx: Texts, query: string, es: seq<Slot>)
    ensures |Matching(tx, query, es)| == MatchCount(tx, query, es)
  {
    if es != [] { MatchesAreCounted(tx, query, es[..|es| - 1]); }
  }

  lemma {:induction false} FoundCount(tx: Texts, query: string, k: nat, es: seq<Slot>)
    ensures |Found(tx, query, k, es)| == if MatchCount(tx, query, es) < k then MatchCount(tx, query, es) else k
  {
    var matching := Matching(tx, query, es);
    MatchesAreCounted(tx, query, es);
    SortPermutes(matching);
    assert |SortByScore(matching)| == |multiset(SortByScore(matching))| == |multiset(matching)| == |matching|;
  }

  lemma {:induction false} HalfUp(n: nat, k: nat)
    ensures n >= (k + 1) / 2 <==> 2 * n >= k
  {
  }

  lemma {:induction false} NotT0Below(w: World, cfg: Config, input: Input, ans: Answers, picks: seq<nat>, ws: WorkingSet)
    ensures var out := BelowT0(w, cfg, input, ans, picks, ws).1; out.Results? ==> out.tier != T0
  {
  }

  lemma {:induction false} T0IffFound(w: World, cfg: Config, input: Input, ans: Answers, picks: seq<nat>)
    requires AllIn(ans.profiles, w.chunks)
    ensures var out := Recalled(w, cfg, input, ans, picks).1;
            out.Results? && out.tier == T0 <==> |Searched(w, cfg, input, ans).1| >= (input.K() + 1) / 2
  {
    NotT0Below(w, cfg, input, ans, picks, Searched(w, cfg, input, ans).0);
  }

  /** T0 answers a recall exactly if, primed, it holds matches for at least half of the results asked
      for. */
  lemma {:induction false} T0AnswersIff(w: World, cfg: Config, input: Input, ans: Answers, picks: seq<nat>)
    requires AllIn(ans.profiles, w.chunks)
    ensures var es := Primed(w.chunks, WorkingSetFor(w, KeyOf(input)), ans.profiles, cfg.t0SizeLimit).entries;
            var out := Recalled(w, cfg, input, ans, picks).1;
            out.Results? && out.tier == T0 <==> 2 * MatchCount(cfg.texts, input.query, es) >= input.K()
  {
    var es := Primed(w.chunks, WorkingSetFor(w, KeyOf(input)), ans.profiles, cfg.t0SizeLimit).entries;
    T0IffFound(w, cfg, input, ans, picks);
    FoundCount(cfg.texts, input.query, input.K(), es);
    HalfUp(|Found(cfg.texts, input.query, input.K(), es)|, input.K());
  }

  /** Below T0 a recall fails exactly if reading the cache, or, with no live row, one of the calls that
      a fresh recall makes, does. Embedding the query is one of them if the semantic routes run. */
  lemma {:induction false} RejectedIff(w: World, cfg: Config, input: Input, ans: Answers, picks: seq<nat>)
    requires AllIn(ans.profiles, w.chunks)
    requires 2 * MatchCount(cfg.texts, input.query, Primed(w.chunks, WorkingSetFor(w, KeyOf(input)), ans.profiles, cfg.t0SizeLimit).entries) < input.K()
    ensures var q := (input.query, ScopeKeyFor(input));
            var live := q in w.recalls && !w.recalls[q].invalidated && w.now < w.recalls[q].expiresAt;
            var embeds := !ans.precise || 2 * RowTotal(ans.structured) < input.K();
            Recalled(w, cfg, input, ans, picks).1 == Rejected <==>
              || ans.fault == ReadFails
              || (!live && (ans.fault == RoutesFail || ans.fault == PromotionFails || ans.fault == StoreFails || (ans.fault == EmbeddingFails && embeds)))
  {
    T0AnswersIff(w, cfg, input, ans, picks);
    RowsAreCounted(ans.structured);
  }

  /* --------------------------- what the caches come to hold --------------------- */

  lemma {:induction false} BelowT0LeavesRow(w: World, cfg: Config, input: Input, ans: Answers, picks: seq<nat>, ws: WorkingSet)
    ensures var (w', out) := BelowT0(w, cfg, input, ans, picks, ws);
            if out.Results? && out.tier == T2 then
              && out.results == Fresh(w.chunks, input, ans, picks)
              && w'.recalls == w.recalls[(input.query, ScopeKeyFor(input)) := RecallRow(out.results, false, w.now + cfg.ttlMs)]
            else w'.recalls == w.recalls && (out.Results? ==> out.tier == T1)
  {
    RoutesLeaveRow(w, cfg, input, ans, ws, Fresh(w.chunks, input, ans, picks));
  }

  lemma {:induction false} RoutesLeaveRow(w: World, cfg: Config, input: Input, ans: Answers, ws: WorkingSet, served: seq<Merged>)
    ensures var (w', out) := FromRoutes(w, cfg, input, ans, ws, served);
            if ans.fault.StoreFails? then out == Rejected && w'.recalls == w.recalls
            else out == Results(served, T2)
                 && w'.recalls == w.recalls[(input.query, ScopeKeyFor(input)) := RecallRow(served, false, w.now + cfg.ttlMs)]
  {
  }

  /** A fresh answer leaves itself in cache.recall, for the time to live; nothing else changes it. */
  lemma {:induction false} FreshAnswerLeavesRow(w: World, cfg: Config, input: Input, ans: Answers, picks: seq<nat>)
    requires AllIn(ans.profiles, w.chunks)
    ensures var (w', out) := Recalled(w, cfg, input, ans, picks);
            if out.Results? && out.tier == T2 then
              && out.results == Fresh(w.chunks, input, ans, picks)
              && w'.recalls == w.recalls[(input.query, ScopeKeyFor(input)) := RecallRow(out.results, false, w.now + cfg.ttlMs)]
            else w'.recalls == w.recalls
  {
    var ws := Searched(w, cfg, input, ans).0;
    BelowT0LeavesRow(w, cfg, input, ans, picks, ws);
  }

  /** Below T0 a row in force is the answer, as far as it passes; one that is not, never is. */
  lemma {:induction false} RowAnswers(w: World, cfg: Config, input: Input, ans: Answers, picks: seq<nat>)
    requires AllIn(ans.profiles, w.chunks)
    ensures var q := (input.query, ScopeKeyFor(input));
            var live := q in w.recalls && !w.recalls[q].invalidated && w.now < w.recalls[q].expiresAt;
            var out := Recalled(w, cfg, input, ans, picks).1;
            out.Results? && out.tier != T0 ==>
              && (out.tier == T1 <==> live)
              && (live ==> out.results == Take(Keep(w.recalls[q].topK, input.MinScore()), input.K()))
  {
  }

  /** A fresh answer is what the same question is answered with again, below T0, from the row it left,
      until the row expires or changes. */
  lemma {:induction false} FreshAnswerIsServedAgain(w: World, cfg: Config, input: Input, ans: Answers, picks: seq<nat>,
                                                    w2: World, ans2: Answers, picks2: seq<nat>)
    requires AllIn(ans.profiles, w.chunks) && AllIn(ans2.profiles, w2.chunks)
    requires Picked(cfg, Combined(w.chunks, input.K(), input.weights, ans), input.K(), picks)
    requires Recalled(w, cfg, input, ans, picks).1.Results? && Recalled(w, cfg, input, ans, picks).1.tier == T2
    requires w2.recalls == Recalled(w, cfg, input, ans, picks).0.recalls
    ensures var out, out2 := Recalled(w, cfg, input, ans, picks).1, Recalled(w2, cfg, input, ans2, picks2).1;
            && (out2.Results? && out2.tier != T0 && w2.now < w.now + cfg.ttlMs ==> out2 == Results(out.results, T1))
            && (out2.Results? && w2.now >= w.now + cfg.ttlMs ==> out2.tier != T1)
  {
    FreshAnswerLeavesRow(w, cfg, input, ans, picks);
    RowAnswers(w2, cfg, input, ans2, picks2);
    ServedPassesAgain(w.chunks, cfg, input, ans, picks);
  }

  lemma {:induction false} ServedPassesAgain(chunks: map<string, Chunk>, cfg: Config, input: Input, ans: Answers, picks: seq<nat>)
    requires Picked(cfg, Combined(chunks, input.K(), input.weights, ans), input.K(), picks)
    ensures var served := Fresh(chunks, input, ans, picks);
            Take(Keep(served, input.MinScore()), input.K()) == served
  {
    var served := Fresh(chunks, input, ans, picks);
    var ps := FreshSieves(chunks, input, ans, picks);
    AllKept(served, input.MinScore());
    SieveIsShorter(ps, |Reranked(Combined(chunks, input.K(), input.weights, ans), input.K(), picks)|);
  }

  lemma {:induction false} AllKept(cs: seq<Merged>, minScore: real)
    requires forall i :: 0 <= i < |cs| ==> cs[i].combinedScore >= minScore
    ensures Keep(cs, minScore) == cs
  {
    if cs != [] { AllKept(cs[..|cs| - 1], minScore); }
  }

  lemma {:induction false} SieveIsShorter(ps: seq<nat>, n: nat)
    requires Increasing(ps, n)
    ensures |ps| <= n
  {
    if ps != [] {
      var m := |ps| - 1;
      SieveIsShorter(ps[..m], ps[m]);
    }
  }
}
