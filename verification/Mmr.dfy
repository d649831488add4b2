/** Greedy diversification of merged candidates: maximal marginal relevance with a token-overlap
    similarity (src/recall/routes.ts). */
module Mmr {
  import opened SeqTools
  import opened Ranking

  /** The token set of each text; how a text is cut into tokens is a parameter. */
  type Tokens = string -> set<string>

  /* ---------------------------------- jaccard --------------------------------- */

  function Jaccard(a: set<string>, b: set<string>): real {
    if a == {} || b == {} then 0.0 else |a * b| as real / |a + b| as real
  }

  /** The elements of a that are in b, counted one by one. */
  method CountShared(a: set<string>, b: set<string>) returns (inter: nat)
    ensures inter == |a * b|
  {
    inter := 0;
    var left := a;
    while left != {}
      invariant left <= a && inter == |(a - left) * b|
      decreases left
    {
      var x :| x in left;
      var before := (a - left) * b;
      left := left - {x};
      if x in b {
        assert (a - left) * b == before + {x};
        inter := inter + 1;
      } else {
        assert (a - left) * b == before;
      }
    }
    assert a - left == a;
  }

  /** The intersection counted element by element, over the size of the union. */
  method JaccardLoop(a: set<string>, b: set<string>) returns (r: real)
    ensures r == Jaccard(a, b)
  {
    if |a| == 0 || |b| == 0 { return 0.0; }
    var inter := CountShared(a, b);
    assert a <= a + b;
    r := inter as real / (|a| + |b| - inter) as real;
  }

  /** Similarity is symmetric, lies in [0, 1], and is 1 exactly for equal non-empty sets. */
  lemma {:induction false} JaccardIsSimilarity(a: set<string>, b: set<string>)
    ensures Jaccard(a, b) == Jaccard(b, a) && 0.0 <= Jaccard(a, b) <= 1.0
    ensures Jaccard(a, b) == 1.0 <==> a == b && a != {}
  {
    assert a * b == b * a && a + b == b + a;
    if a != {} && b != {} {
      SubsetSize(a * b, a + b);
      var x :| x in a;
      assert x in a + b;
      if a * b == a + b {
        assert forall y :: y in a <==> y in b;
      } else {
        assert a == b ==> a * b == a + b;
      }
    }
  }

  /* ------------------------------- greedy choice ------------------------------ */

  function Blend(lambda: real, relevance: real, maxSim: real): real {
    lambda * relevance - (1.0 - lambda) * maxSim
  }

  predicate InRange(ps: seq<nat>, n: nat) {
    forall j :: 0 <= j < |ps| ==> ps[j] < n
  }

  datatype Pool = Pool(items: seq<Merged>, tokens: Tokens, lambda: real)
  {
    function Sim(i: nat, j: nat): real
      requires i < |items| && j < |items|
    {
      Jaccard(tokens(items[i].text), tokens(items[j].text))
    }

    /** The largest similarity to what is already selected, at least 0. */
    function MaxSim(i: nat, selected: seq<nat>): real
      requires i < |items| && InRange(selected, |items|)
    {
      if selected == [] then 0.0
      else
        var n := |selected| - 1;
        var earlier, sim := MaxSim(i, selected[..n]), Sim(i, selected[n]);
        if sim > earlier then sim else earlier
    }

    function Score(i: nat, selected: seq<nat>): real
      requires i < |items| && InRange(selected, |items|)
    {
      Blend(lambda, items[i].combinedScore, MaxSim(i, selected))
    }

    /** c beats every other candidate still in play, and strictly every earlier one. */
    ghost predicate Best(c: nat, selected: seq<nat>) {
      && InRange(selected, |items|) && c < |items| && c !in selected
      && forall i: nat :: i < |items| && i !in selected ==>
           Score(i, selected) <= Score(c, selected) && (i < c ==> Score(i, selected) < Score(c, selected))
    }

    /** Every pick is the best at its turn. */
    ghost predicate Greedy(selected: seq<nat>) {
      forall t :: 0 <= t < |selected| ==> Best(selected[t], selected[..t])
    }
  }

  function ItemsAt(items: seq<Merged>, ps: seq<nat>): seq<Merged>
    requires InRange(ps, |items|)
  {
    seq(|ps|, i requires 0 <= i < |ps| => items[ps[i]])
  }

  /** `mmrRerank`, with lam for lambda, also returning the positions it picks. */
  method MmrRerank(items: seq<Merged>, k: nat, lam: real, tokens: Tokens)
      returns (reranked: seq<Merged>, picks: seq<nat>)
    ensures |items| <= k ==> reranked == items
    ensures |items| > k ==>
      && |picks| == k && Pool(items, tokens, lam).Greedy(picks)
      && InRange(picks, |items|) && reranked == ItemsAt(items, picks)
  {
    picks := [];
    if |items| <= k { return items, []; }
    var p := Pool(items, tokens, lam);
    var selected: seq<nat> := [];
    var left := Positions(|items|);
    PositionsInPlay(|items|);
    reranked := [];
    while |selected| < k && |left| > 0
      invariant |selected| <= k && |selected| + |left| == |items|
      invariant InRange(selected, |items|)
      invariant InPlay(|items|, selected, left)
      invariant p.Greedy(selected)
      invariant reranked == ItemsAt(items, selected)
      decreases |left|
    {
      var bestIdx := BestIndex(p, selected, left);
      var c := left[bestIdx];
      RemoveKeepsInPlay(|items|, selected, left, bestIdx);
      reranked := reranked + [items[c]];
      GreedySnoc(p, selected, c);
      left := left[..bestIdx] + left[bestIdx + 1..];
      selected := selected + [c];
    }
    picks := selected;
  }

  function Positions(n: nat): seq<nat> {
    seq(n, i requires 0 <= i < n => i)
  }

  lemma {:induction false} PositionsInPlay(n: nat)
    ensures InPlay(n, [], Positions(n))
  {
    var left := Positions(n);
    forall i: nat ensures i in left <==> i < n {
      if i < n { assert left[i] == i; }
    }
  }

  /** left lists, in ascending order, exactly the positions not selected. */
  ghost predicate InPlay(n: nat, selected: seq<nat>, left: seq<nat>) {
    && InRange(left, n) && (forall i, j :: 0 <= i < j < |left| ==> left[i] < left[j])
    && forall i: nat :: i in left <==> i < n && i !in selected
  }

  /** The inner loops: the first index of left with the greatest score. */
  method BestIndex(p: Pool, selected: seq<nat>, left: seq<nat>) returns (bestIdx: nat)
    requires left != [] && InRange(selected, |p.items|) && InRange(left, |p.items|)
    ensures bestIdx < |left|
    ensures forall m :: 0 <= m < |left| ==> p.Score(left[m], selected) <= p.Score(left[bestIdx], selected)
    ensures forall m :: 0 <= m < bestIdx ==> p.Score(left[m], selected) < p.Score(left[bestIdx], selected)
  {
    bestIdx := 0;
    var bestScore := ScoreLoop(p, left[0], selected);
    for i := 1 to |left|
      invariant bestIdx < i && bestScore == p.Score(left[bestIdx], selected)
      invariant forall m :: 0 <= m < i ==> p.Score(left[m], selected) <= bestScore
      invariant forall m :: 0 <= m < bestIdx ==> p.Score(left[m], selected) < bestScore
    {
      var score := ScoreLoop(p, left[i], selected);
      if score > bestScore {
        bestScore := score;
        bestIdx := i;
      }
    }
  }

  method ScoreLoop(p: Pool, i: nat, selected: seq<nat>) returns (score: real)
    requires i < |p.items| && InRange(selected, |p.items|)
    ensures score == p.Score(i, selected)
  {
    var maxSim := 0.0;
    for n := 0 to |selected|
      invariant maxSim == p.MaxSim(i, selected[..n])
    {
      assert selected[..n + 1][..n] == selected[..n];
      var sim := JaccardLoop(p.tokens(p.items[i].text), p.tokens(p.items[selected[n]].text));
      if sim > maxSim { maxSim := sim; }
    }
    assert selected[..|selected|] == selected;
    score := Blend(p.lambda, p.items[i].combinedScore, maxSim);
  }

  lemma {:induction false} RemoveKeepsInPlay(n: nat, selected: seq<nat>, left: seq<nat>, b: nat)
    requires InPlay(n, selected, left) && b < |left|
    ensures InPlay(n, selected + [left[b]], left[..b] + left[b + 1..])
  {
    var left' := left[..b] + left[b + 1..];
    forall i: nat ensures i in left' <==> i in left && i != left[b] {
      if i in left && i != left[b] {
        var m :| 0 <= m < |left| && left[m] == i;
        assert left'[if m < b then m else m - 1] == i;
      }
      if i in left' {
        var m :| 0 <= m < |left'| && left'[m] == i;
        assert left[if m < b then m else m + 1] == i;
      }
    }
  }

  lemma {:induction false} GreedySnoc(p: Pool, selected: seq<nat>, c: nat)
    requires p.Greedy(selected) && p.Best(c, selected)
    ensures p.Greedy(selected + [c])
  {
    var s' := selected + [c];
    forall t | 0 <= t < |s'| ensures p.Best(s'[t], s'[..t]) {
      assert s'[..t] == if t < |selected| then selected[..t] else selected;
    }
  }

  /* ------------------------- what greedy selection gives ----------------------- */

  /** No position is picked twice. */
  lemma {:induction false} PicksAreDistinct(p: Pool, picks: seq<nat>)
    requires p.Greedy(picks)
    ensures InRange(picks, |p.items|) && forall i, j :: 0 <= i < j < |picks| ==> picks[i] != picks[j]
  {
    forall i, j | 0 <= i < j < |picks| ensures picks[i] != picks[j] {
      assert p.Best(picks[j], picks[..j]);
      assert picks[..j][i] in picks[..j];
    }
    forall t | 0 <= t < |picks| ensures picks[t] < |p.items| {
      assert p.Best(picks[t], picks[..t]);
    }
  }

  /** Greedy picks are determined: of two greedy selections the shorter is a prefix of the longer,
      so asking for more results never changes the first ones. */
  lemma {:induction false} GreedyIsPrefixClosed(p: Pool, a: seq<nat>, b: seq<nat>)
    requires p.Greedy(a) && p.Greedy(b) && |a| <= |b|
    ensures a == b[..|a|]
  {
    if a != [] {
      var n := |a| - 1;
      var init := a[..n];
      forall t | 0 <= t < n ensures p.Best(init[t], init[..t]) {
        assert init[..t] == a[..t] && p.Best(a[t], a[..t]);
      }
      GreedyIsPrefixClosed(p, init, b);
      assert p.Best(a[n], a[..n]) && p.Best(b[n], b[..n]);
      assert a == init + [a[n]];
    }
  }

  /** The first pick has the greatest combined score, the earliest position among equals. */
  lemma {:induction false} FirstPickIsTop(p: Pool, picks: seq<nat>, i: nat)
    requires p.Greedy(picks) && picks != [] && p.lambda > 0.0 && i < |p.items|
    ensures picks[0] < |p.items| && p.items[i].combinedScore <= p.items[picks[0]].combinedScore
    ensures i < picks[0] ==> p.items[i].combinedScore < p.items[picks[0]].combinedScore
  {
    assert p.Best(picks[0], picks[..0]);
    var c, none: seq<nat> := picks[0], [];
    assert picks[..0] == none && i !in none;
    var x, y := p.items[i].combinedScore, p.items[c].combinedScore;
    assert p.Score(i, none) == p.lambda * x && p.Score(c, none) == p.lambda * y;
  }
}
