/** What a recall's optional fields come to: its limits and its two cache keys (src/recall/router.ts,
    src/recall/working-set.ts). */
module RecallRequests {
  import opened SeqTools
  import opened Ranking
  import opened RecallTiers
  import opened RecallRuns
  import Strings
  import Mmr
  import Diversity

  /** A viewer with a user or a chat to go by. */
  ghost predicate HasViewer(input: Input) {
    input.viewer.Some? &&
    var v := input.viewer.value;
    (v.userId.Some? && v.userId.value != "") || (v.chatId.Some? && v.chatId.value != "")
  }

  /** A recall returns at most 12 results if it asks for no number, and at least one is allowed. Below
      T0 each result reaches the score asked for, or 0. */
  lemma {:induction false} RequestIsKept(w: World, cfg: Config, input: Input, ans: Answers, picks: seq<nat>, c: Merged)
    requires AllIn(ans.profiles, w.chunks)
    requires Picked(cfg, Combined(w.chunks, input.K(), input.weights, ans), input.K(), picks)
    ensures var out := Recalled(w, cfg, input, ans, picks).1;
            out.Results? ==>
              && (input.maxResults.None? ==> |out.results| <= 12)
              && (input.maxResults.Some? ==> |out.results| <= if input.maxResults.value > 1 then input.maxResults.value else 1)
              && (c in out.results && out.tier != T0 ==> c.combinedScore >= if input.minScore.None? then 0.0 else input.minScore.value)
  {
    RecallRespectsRequest(w, cfg, input, ans, picks, c);
  }

  /** Fresh results are filtered exactly when there is a viewer. */
  lemma {:induction false} ViewersAreFiltered(chunks: map<string, Chunk>, input: Input, ans: Answers, picks: seq<nat>, c: Merged)
    ensures var kept := Keep(Reranked(Combined(chunks, input.K(), input.weights, ans), input.K(), picks), input.MinScore());
            c in Fresh(chunks, input, ans, picks) <==> c in kept && (HasViewer(input) ==> c.chunkId in ans.visible)
  {
    var kept := Keep(Reranked(Combined(chunks, input.K(), input.weights, ans), input.K(), picks), input.MinScore());
    if input.Filtered() { VisibleIff(kept, ans.visible, c); }
  }

  lemma {:induction false} VisibleIff(cs: seq<Merged>, visible: set<string>, c: Merged)
    ensures c in KeepVisible(cs, visible) <==> c in cs && c.chunkId in visible
  {
    if cs != [] { VisibleIff(cs[..|cs| - 1], visible, c); }
  }

  /** Seven tenths of the score, less three tenths of the overlap of tokens with another candidate. */
  function Traded(cfg: Config, all: seq<Merged>, i: nat, j: nat): real
    requires i < |all| && j < |all|
  {
    0.7 * all[i].combinedScore - 0.3 * Mmr.Jaccard(cfg.texts.tokens(all[i].text), cfg.texts.tokens(all[j].text))
  }

  /** With more candidates than results, each result after the first beats every candidate not yet
      picked, measured against the earlier result nearest to it. */
  lemma {:induction false} ResultsAreTraded(cfg: Config, all: seq<Merged>, k: nat, picks: seq<nat>, t: nat, i: nat, u: nat) returns (v: nat)
    requires Picked(cfg, all, k, picks) && |all| > k && 0 < t < k && i < |all| && i !in picks[..t] && u < t
    ensures v < t && Traded(cfg, all, i, picks[v]) <= Traded(cfg, all, picks[t], picks[u])
    ensures i < picks[t] ==> Traded(cfg, all, i, picks[v]) < Traded(cfg, all, picks[t], picks[u])
  {
    var p := Mmr.Pool(all, cfg.texts.tokens, MMR_LAMBDA);
    v := Diversity.PicksBeatDuplicates(p, picks, t, i, u);
  }

  /** With no number asked for 12 are picked, else that number or 1; each stands at the turn it was
      picked. No more candidates than that stay as they are. */
  lemma {:induction false} RerankedArePicks(cfg: Config, all: seq<Merged>, input: Input, picks: seq<nat>, t: nat)
    requires Picked(cfg, all, input.K(), picks)
    ensures var asked := if input.maxResults.None? then 12 else if input.maxResults.value > 1 then input.maxResults.value else 1;
            var reranked := Reranked(all, input.K(), picks);
            if |all| <= asked then reranked == all
            else |reranked| == |picks| == asked && (t < asked ==> reranked[t] == all[picks[t]])
  {
  }

  /* -------------------------------- cache.recall keys --------------------------- */

  /** What a missing field stands for. */
  function Given(o: Option<string>, missing: string): string {
    match o case None => missing case Some(s) => s
  }

  function UserOf(input: Input, missing: string): string {
    match input.viewer case None => missing case Some(v) => Given(v.userId, missing)
  }

  function ChatOf(input: Input): string {
    match input.viewer case None => "" case Some(v) => Given(v.chatId, "")
  }

  /** Two recalls ask alike: the same agent, viewer, anchors and time bucket. */
  ghost predicate AskAlike(i: Input, j: Input) {
    && Given(i.agentId, "main") == Given(j.agentId, "main") && UserOf(i, "") == UserOf(j, "") && ChatOf(i) == ChatOf(j)
    && Given(i.anchors.cwd, "") == Given(j.anchors.cwd, "") && Given(i.anchors.branch, "") == Given(j.anchors.branch, "")
    && Given(i.anchors.pr, "") == Given(j.anchors.pr, "") && Given(i.anchors.file, "") == Given(j.anchors.file, "")
    && Given(i.anchors.session, "") == Given(j.anchors.session, "") && Given(i.timeBucket, "") == Given(j.timeBucket, "")
  }

  /** No part of the key but the last holds a bar, and the user id no colon. */
  ghost predicate BarFree(i: Input) {
    && '|' !in Given(i.agentId, "main") && '|' !in UserOf(i, "") && ':' !in UserOf(i, "") && '|' !in ChatOf(i)
    && '|' !in Given(i.anchors.cwd, "") && '|' !in Given(i.anchors.branch, "") && '|' !in Given(i.anchors.pr, "")
    && '|' !in Given(i.anchors.file, "") && '|' !in Given(i.anchors.session, "")
  }

  lemma {:induction false} PartsSplit(d: char, a: string, x: string, b: string, y: string)
    requires d !in a && d !in b
    ensures a + [d] + x == b + [d] + y <==> a == b && x == y
  {
    if a + [d] + x == b + [d] + y { Strings.FirstCharSplits(d, a, x, b, y); }
  }

  /** The key's parts after the viewer, one inside the other. */
  function AnchorTail(i: Input): string {
    var a := i.anchors;
    Given(a.pr, "") + "|" + (Given(a.file, "") + "|" + (Given(a.session, "") + "|" + Given(i.timeBucket, "")))
  }

  function ViewerTail(i: Input): string {
    ChatOf(i) + "|" + (Given(i.anchors.cwd, "") + "|" + (Given(i.anchors.branch, "") + "|" + AnchorTail(i)))
  }

  lemma {:induction false} Shift(x: string, y: string, z: string)
    ensures x + "|" + y + "|" + z == x + "|" + (y + "|" + z)
  {
  }

  lemma {:induction false} BarsNest(a: string, b: string, c: string, d: string, e: string, f: string)
    ensures a + "|" + b + "|" + c + "|" + d + "|" + e + "|" + f
         == a + "|" + (b + "|" + (c + "|" + (d + "|" + (e + "|" + f))))
  {
    Shift(a + "|" + b + "|" + c + "|" + d, e, f);
    Shift(a + "|" + b + "|" + c, d, e + "|" + f);
    Shift(a + "|" + b, c, d + "|" + (e + "|" + f));
    Shift(a, b, c + "|" + (d + "|" + (e + "|" + f)));
  }

  lemma {:induction false} ScopeKeyNests(i: Input)
    ensures ScopeKeyFor(i) == "agent:" + (Given(i.agentId, "main") + "|" + ("viewer:" + (UserOf(i, "") + ":" + ViewerTail(i))))
  {
    var a := i.anchors;
    BarsNest(Given(a.cwd, ""), Given(a.branch, ""), Given(a.pr, ""), Given(a.file, ""), Given(a.session, ""), Given(i.timeBucket, ""));
    var rest := Given(a.cwd, "") + "|" + (Given(a.branch, "") + "|" + AnchorTail(i));
    assert ScopeKeyFor(i) == ScopeKey(Given(i.agentId, "main"), UserOf(i, ""), ChatOf(i), rest);
    KeyNests(Given(i.agentId, "main"), UserOf(i, ""), ChatOf(i), rest);
  }

  lemma {:induction false} KeyNests(agent: string, user: string, chat: string, rest: string)
    ensures ScopeKey(agent, user, chat, rest) == "agent:" + (agent + "|" + ("viewer:" + (user + ":" + (chat + "|" + rest))))
  {
    var tail := chat + "|" + rest;
    assert ScopeKey(agent, user, chat, rest) == RowTag(agent) + (user + ":" + tail);
  }

  lemma {:induction false} AnchorTailIff(i: Input, j: Input)
    requires BarFree(i) && BarFree(j)
    ensures AnchorTail(i) == AnchorTail(j) <==>
              && Given(i.anchors.pr, "") == Given(j.anchors.pr, "") && Given(i.anchors.file, "") == Given(j.anchors.file, "")
              && Given(i.anchors.session, "") == Given(j.anchors.session, "") && Given(i.timeBucket, "") == Given(j.timeBucket, "")
  {
    var a, b := i.anchors, j.anchors;
    var s, t := Given(a.session, "") + "|" + Given(i.timeBucket, ""), Given(b.session, "") + "|" + Given(j.timeBucket, "");
    PartsSplit('|', Given(a.session, ""), Given(i.timeBucket, ""), Given(b.session, ""), Given(j.timeBucket, ""));
    PartsSplit('|', Given(a.file, ""), s, Given(b.file, ""), t);
    PartsSplit('|', Given(a.pr, ""), Given(a.file, "") + "|" + s, Given(b.pr, ""), Given(b.file, "") + "|" + t);
  }

  lemma {:induction false} ViewerTailIff(i: Input, j: Input)
    requires BarFree(i) && BarFree(j)
    ensures ViewerTail(i) == ViewerTail(j) <==>
              && ChatOf(i) == ChatOf(j) && Given(i.anchors.cwd, "") == Given(j.anchors.cwd, "")
              && Given(i.anchors.branch, "") == Given(j.anchors.branch, "") && AnchorTail(i) == AnchorTail(j)
  {
    var a, b := i.anchors, j.anchors;
    var s, t := Given(a.branch, "") + "|" + AnchorTail(i), Given(b.branch, "") + "|" + AnchorTail(j);
    PartsSplit('|', Given(a.branch, ""), AnchorTail(i), Given(b.branch, ""), AnchorTail(j));
    PartsSplit('|', Given(a.cwd, ""), s, Given(b.cwd, ""), t);
    PartsSplit('|', ChatOf(i), Given(a.cwd, "") + "|" + s, ChatOf(j), Given(b.cwd, "") + "|" + t);
  }

  lemma {:induction false} SamePrefix(p: string, x: string, y: string)
    ensures p + x == p + y <==> x == y
  {
    assert (p + x)[|p|..] == x && (p + y)[|p|..] == y;
  }

  /** Two recalls look in the same row of cache.recall for a query exactly when they ask alike. */
  lemma {:induction false} SameRowIffAskAlike(i: Input, j: Input)
    requires BarFree(i) && BarFree(j)
    ensures ScopeKeyFor(i) == ScopeKeyFor(j) <==> AskAlike(i, j)
  {
    var x, y := UserOf(i, "") + ":" + ViewerTail(i), UserOf(j, "") + ":" + ViewerTail(j);
    var g, h := Given(i.agentId, "main"), Given(j.agentId, "main");
    ScopeKeyNests(i);
    ScopeKeyNests(j);
    SamePrefix("agent:", g + "|" + ("viewer:" + x), h + "|" + ("viewer:" + y));
    PartsSplit('|', g, "viewer:" + x, h, "viewer:" + y);
    SamePrefix("viewer:", x, y);
    PartsSplit(':', UserOf(i, ""), ViewerTail(i), UserOf(j, ""), ViewerTail(j));
    ViewerTailIff(i, j);
    AnchorTailIff(i, j);
  }

  /* -------------------------------- working-set keys ---------------------------- */

  lemma {:induction false} LastCharSplits(d: char, a: string, x: string, b: string, y: string)
    requires d !in x && d !in y
    ensures a + [d] + x == b + [d] + y <==> a == b && x == y
  {
    var s, t := a + [d] + x, b + [d] + y;
    if s == t {
      assert forall k :: |a| < k < |s| ==> s[k] != d;
      assert forall k :: |b| < k < |t| ==> t[k] != d;
      assert s[|a|] == d && t[|b|] == d;
      assert s[..|a|] == a && t[..|b|] == b && s[|a| + 1..] == x && t[|b| + 1..] == y;
    }
  }

  lemma {:induction false} SetKeyNests(agent: string, session: string, user: string)
    ensures WorkingSetKey(agent, session, user) == agent + [':'] + (":" + (session + ":" + ":" + user))
  {
  }

  /** Two recalls share a working set exactly when their agent, session and user are the same, whatever
      the session's name. */
  lemma {:induction false} SameSetIff(i: Input, j: Input)
    requires ':' !in Given(i.agentId, "main") && ':' !in Given(j.agentId, "main")
    requires ':' !in UserOf(i, "default") && ':' !in UserOf(j, "default")
    ensures KeyOf(i) == KeyOf(j) <==>
              && Given(i.agentId, "main") == Given(j.agentId, "main") && UserOf(i, "default") == UserOf(j, "default")
              && Given(i.agentSessionId, "default") == Given(j.agentSessionId, "default")
  {
    var g, h := Given(i.agentId, "main"), Given(j.agentId, "main");
    var s, t := Given(i.agentSessionId, "default"), Given(j.agentSessionId, "default");
    var u, v := UserOf(i, "default"), UserOf(j, "default");
    SetKeyNests(g, s, u);
    SetKeyNests(h, t, v);
    PartsSplit(':', g, ":" + (s + ":" + ":" + u), h, ":" + (t + ":" + ":" + v));
    SamePrefix(":", s + ":" + ":" + u, t + ":" + ":" + v);
    LastCharSplits(':', s + ":", u, t + ":", v);
    LastCharSplits(':', s, "", t, "");
  }
}
