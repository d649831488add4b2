/** What the reranker trades (src/recall/routes.ts): relevance against the likeness of a candidate to
    the nearest one already picked, read from the items and their tokens. */
module Diversity {
  import opened SeqTools
  import opened Ranking
  import opened Mmr

  /** Shared tokens over all tokens of two texts; nothing is like a text without tokens. */
  lemma {:induction false} JaccardIsRatio(a: set<string>, b: set<string>)
    ensures a != {} && b != {} ==> Jaccard(a, b) * |a + b| as real == |a * b| as real
    ensures a == {} || b == {} ==> Jaccard(a, b) == 0.0
  {
    if a != {} && b != {} {
      var x :| x in a;
      assert x in a + b;
      var n, m := |a * b| as real, |a + b| as real;
      assert m > 0.0 && n / m * m == n;
    }
  }

  /** How alike two items are. */
  function Likeness(p: Pool, i: nat, j: nat): real
    requires i < |p.items| && j < |p.items|
  {
    Jaccard(p.tokens(p.items[i].text), p.tokens(p.items[j].text))
  }

  /** Of the first t picks none is more like item i than the v-th. */
  ghost predicate Nearest(p: Pool, picks: seq<nat>, t: nat, i: nat, v: nat)
    requires t <= |picks| && InRange(picks, |p.items|) && i < |p.items|
  {
    v < t && forall u :: 0 <= u < t ==> Likeness(p, i, picks[u]) <= Likeness(p, i, picks[v])
  }

  lemma {:induction false} MaxSimIsNearest(p: Pool, picks: seq<nat>, t: nat, i: nat) returns (v: nat)
    requires 0 < t <= |picks| && InRange(picks, |p.items|) && i < |p.items|
    ensures Nearest(p, picks, t, i, v) && p.MaxSim(i, picks[..t]) == Likeness(p, i, picks[v])
  {
    var n := t - 1;
    JaccardIsSimilarity(p.tokens(p.items[i].text), p.tokens(p.items[picks[n]].text));
    assert picks[..t][..n] == picks[..n] && picks[..t][n] == picks[n];
    if n == 0 {
      v := 0;
    } else {
      v := MaxSimIsNearest(p, picks, n, i);
      if Likeness(p, i, picks[n]) > Likeness(p, i, picks[v]) { v := n; }
    }
  }

  /** Relevance, weighed against a likeness. */
  function Worth(l: real, relevance: real, likeness: real): real {
    l * relevance - (1.0 - l) * likeness
  }

  lemma {:induction false} ScoreIsWorth(p: Pool, picks: seq<nat>, t: nat, i: nat, v: nat)
    requires 0 < t <= |picks| && InRange(picks, |p.items|) && i < |p.items| && Nearest(p, picks, t, i, v)
    ensures p.Score(i, picks[..t]) == Worth(p.lambda, p.items[i].combinedScore, Likeness(p, i, picks[v]))
  {
    var n := MaxSimIsNearest(p, picks, t, i);
    assert Likeness(p, i, picks[n]) == Likeness(p, i, picks[v]);
  }

  /** After the first pick: whatever else could have been picked at turn t, with v the earlier pick
      nearest to it and w the one nearest to what was picked, is worth no more, and less if it comes
      before. */
  lemma {:induction false} PicksTradeRelevance(p: Pool, picks: seq<nat>, t: nat, i: nat, v: nat, w: nat)
    requires p.Greedy(picks) && 0 < t < |picks| && i < |p.items| && i !in picks[..t]
    requires InRange(picks, |p.items|) && Nearest(p, picks, t, i, v) && Nearest(p, picks, t, picks[t], w)
    ensures var rest := Worth(p.lambda, p.items[i].combinedScore, Likeness(p, i, picks[v]));
            var best := Worth(p.lambda, p.items[picks[t]].combinedScore, Likeness(p, picks[t], picks[w]));
            rest <= best && (i < picks[t] ==> rest < best)
  {
    assert p.Best(picks[t], picks[..t]);
    ScoreIsWorth(p, picks, t, i, v);
    ScoreIsWorth(p, picks, t, picks[t], w);
  }

  /** Likeness only ever counts against a candidate. */
  lemma {:induction false} WorthFalls(l: real, relevance: real, near: real, far: real)
    requires l <= 1.0 && far <= near
    ensures Worth(l, relevance, near) <= Worth(l, relevance, far)
  {
    TimesGrows(1.0 - l, far, near);
  }

  lemma {:induction false} TimesGrows(c: real, x: real, y: real)
    requires 0.0 <= c && x <= y
    ensures c * x <= c * y
  {
    var d := y - x;
    assert c * d >= 0.0;
    assert c * y == c * x + c * d;
  }

  /** So with a weight of at most 1 a pick beats every other candidate, taken at its nearest, even
      if the pick itself is measured against any of the earlier ones. */
  lemma {:induction false} PicksBeatDuplicates(p: Pool, picks: seq<nat>, t: nat, i: nat, u: nat) returns (v: nat)
    requires p.Greedy(picks) && 0 < t < |picks| && i < |p.items| && i !in picks[..t] && u < t
    requires p.lambda <= 1.0
    ensures InRange(picks, |p.items|) && v < t
    ensures var rest := Worth(p.lambda, p.items[i].combinedScore, Likeness(p, i, picks[v]));
            var best := Worth(p.lambda, p.items[picks[t]].combinedScore, Likeness(p, picks[t], picks[u]));
            rest <= best && (i < picks[t] ==> rest < best)
  {
    PicksAreDistinct(p, picks);
    v := MaxSimIsNearest(p, picks, t, i);
    var w := MaxSimIsNearest(p, picks, t, picks[t]);
    PicksTradeRelevance(p, picks, t, i, v, w);
    WorthFalls(p.lambda, p.items[picks[t]].combinedScore, Likeness(p, picks[t], picks[w]), Likeness(p, picks[t], picks[u]));
  }
}
