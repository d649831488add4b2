/** Tiered recall and its invalidation (src/recall/router.ts, src/recall/working-set.ts,
    src/edit/operations.ts, src/edit/invalidate.ts): in-process working sets (T0) and the rows of
    cache.recall (T1) in front of the chunk table. Each recall and each edit is one atomic step. */
module RecallTiers {
  import opened SeqTools
  import opened Chunks
  import opened Ranking
  import Lru
  import Mmr
  import Strings

  /* ---------------------------------- the state -------------------------------- */

  datatype Chunk = Chunk(agent: string, text: string, isProfile: bool, importance: real,
                         retention: Retention, superseded: bool)

  type Slot = Lru.Entry<Lru.Held<Merged>>

  datatype WorkingSet = WorkingSet(entries: seq<Slot>, primed: bool)

  datatype RecallRow = RecallRow(topK: seq<Merged>, invalidated: bool, expiresAt: int)

  /** chunks: the table, by id. t0: the registry of working sets. recalls: cache.recall, by query
      (standing for its hash) and scope key. */
  datatype World = World(chunks: map<string, Chunk>, t0: map<string, WorkingSet>,
                         recalls: map<(string, string), RecallRow>, now: int)

  /** How a text is lower-cased, cut into words by a T0 search, and into tokens by the reranker. */
  datatype Texts = Texts(lower: string -> string, words: string -> set<string>, tokens: string -> set<string>)

  datatype Config = Config(t0SizeLimit: nat, ttlMs: nat, texts: Texts)

  const DEFAULT_K := 12
  const MMR_LAMBDA := 0.7
  const SUPERSEDED_PENALTY := 0.2

  /* ----------------------------------- inputs ---------------------------------- */

  datatype Viewer = Viewer(userId: Option<string>, chatId: Option<string>)

  datatype Anchors = Anchors(cwd: Option<string>, branch: Option<string>, pr: Option<string>,
                             file: Option<string>, session: Option<string>)

  datatype Input = Input(query: string, agentId: Option<string>, agentSessionId: Option<string>,
                         viewer: Option<Viewer>, anchors: Anchors, timeBucket: Option<string>,
                         maxResults: Option<int>, minScore: Option<real>, weights: Weights)
  {
    function Agent(): string { Or(agentId, "main") }

    function User(): Option<string> {
      if viewer.Some? then viewer.value.userId else None
    }

    function Chat(): Option<string> {
      if viewer.Some? then viewer.value.chatId else None
    }

    function K(): nat {
      if maxResults.None? then DEFAULT_K else if maxResults.value < 1 then 1 else maxResults.value
    }

    function MinScore(): real {
      if minScore.Some? then minScore.value else 0.0
    }

    /** Whether the privacy filter runs. */
    predicate Filtered() {
      Or(User(), "") != "" || Or(Chat(), "") != ""
    }
  }

  function Or(o: Option<string>, fallback: string): string {
    if o.Some? then o.value else fallback
  }

  /** How the keys of an agent's working sets and of its cache.recall rows begin. */
  function SetTag(agent: string): string { agent + "::" }
  function RowTag(agent: string): string { "agent:" + agent + "|" + "viewer:" }

  function WorkingSetKey(agent: string, session: string, user: string): string {
    SetTag(agent) + session + "::" + user
  }

  function KeyOf(input: Input): string {
    WorkingSetKey(input.Agent(), Or(input.agentSessionId, "default"), Or(input.User(), "default"))
  }

  function ScopeKey(agent: string, user: string, chat: string, rest: string): string {
    RowTag(agent) + user + ":" + chat + "|" + rest
  }

  function ScopeKeyFor(input: Input): string {
    var a := input.anchors;
    ScopeKey(input.Agent(), Or(input.User(), ""), Or(input.Chat(), ""),
             Or(a.cwd, "") + "|" + Or(a.branch, "") + "|" + Or(a.pr, "") + "|" + Or(a.file, "") + "|" +
             Or(a.session, "") + "|" + Or(input.timeBucket, ""))
  }

  /** What the database and the embedding service answer during one recall. profiles: ids of profile
      chunks, best first. precise: whether a pr, file or branch anchor was given or inferred.
      visible: the ids the viewer may see. fault: which call throws, if one does. */
  datatype Answers = Answers(profiles: seq<string>, structured: seq<RouteResult>, semantic: seq<RouteResult>,
                             precise: bool, visible: set<string>, fault: Fault)

  /** Reading cache.recall, the routes and lookups up to the privacy filter, embedding the query, the
      hot promotion, or writing cache.recall. */
  datatype Fault = NoFault | ReadFails | RoutesFail | EmbeddingFails | PromotionFails | StoreFails

  datatype Outcome = Results(results: seq<Merged>, tier: Tier) | Rejected
  datatype Tier = T0 | T1 | T2

  /* --------------------------------- T0 operations ------------------------------ */

  function AddAll(es: seq<Slot>, cs: seq<Merged>, cap: nat): seq<Slot> {
    if cs == [] then es
    else Lru.WsAdd(AddAll(es, cs[..|cs| - 1], cap), cs[|cs| - 1].chunkId, cs[|cs| - 1], cap)
  }

  function TouchAll(es: seq<Slot>, cs: seq<Merged>): seq<Slot> {
    if cs == [] then es else Lru.WsTouch(TouchAll(es, cs[..|cs| - 1]), cs[|cs| - 1].chunkId)
  }

  function ProfileCandidate(chunks: map<string, Chunk>, id: string): Merged
    requires id in chunks
  {
    Merged(id, chunks[id].text, [EntityRef], 1.0 + chunks[id].importance)
  }

  predicate AllIn(ids: seq<string>, chunks: map<string, Chunk>) {
    forall i :: 0 <= i < |ids| ==> ids[i] in chunks
  }

  function Profiles(chunks: map<string, Chunk>, ids: seq<string>): seq<Merged>
    requires AllIn(ids, chunks)
  {
    seq(|ids|, i requires 0 <= i < |ids| => ProfileCandidate(chunks, ids[i]))
  }

  /** Priming happens once in the life of a working set. */
  function Primed(chunks: map<string, Chunk>, ws: WorkingSet, ids: seq<string>, cap: nat): WorkingSet
    requires AllIn(ids, chunks)
  {
    if ws.primed then ws else WorkingSet(AddAll(ws.entries, Profiles(chunks, ids), cap), true)
  }

  /** A text that contains the query is fully relevant; else the word overlap counts when over 0.2;
      0.0 stands for no match. */
  function Relevance(tx: Texts, query: string, text: string): real {
    var q, t := tx.lower(query), tx.lower(text);
    if Strings.IndexOf(t, q, 0) >= 0 then 1.0
    else
      var overlap := Mmr.Jaccard(tx.words(q), tx.words(t));
      if overlap > 0.2 then overlap else 0.0
  }

  /** The matching candidates, each with its relevance in place of its score. */
  function Matching(tx: Texts, query: string, es: seq<Slot>): seq<Merged> {
    if es == [] then []
    else
      var n := |es| - 1;
      var c := es[n].value.candidate;
      var rel := Relevance(tx, query, c.text);
      Matching(tx, query, es[..n]) + if rel > 0.0 then [c.(combinedScore := rel)] else []
  }

  function Take<T>(xs: seq<T>, n: nat): seq<T> {
    if |xs| <= n then xs else xs[..n]
  }

  function Found(tx: Texts, query: string, k: nat, es: seq<Slot>): seq<Merged> {
    Take(SortByScore(Matching(tx, query, es)), k)
  }

  /** A found candidate's score rises with its relevance, up to 1. */
  function Boost(c: Merged, rel: real): Merged {
    var s := c.combinedScore + rel * 0.2;
    c.(combinedScore := if s < 1.0 then s else 1.0)
  }

  /** The score is raised in the entry itself. */
  function BoostIn(es: seq<Slot>, f: Merged): seq<Slot> {
    if es == [] then []
    else if es[0].key == f.chunkId then
      [es[0].(value := es[0].value.(candidate := Boost(es[0].value.candidate, f.combinedScore)))] + es[1..]
    else [es[0]] + BoostIn(es[1..], f)
  }

  function BoostAll(es: seq<Slot>, found: seq<Merged>): seq<Slot> {
    if found == [] then es else BoostIn(BoostAll(es, found[..|found| - 1]), found[|found| - 1])
  }

  function Held(es: seq<Slot>, f: Merged): Merged {
    match Lru.Find(es, f.chunkId)
    case Some(h) => h.candidate
    case None => f
  }

  function HeldAll(es: seq<Slot>, found: seq<Merged>): seq<Merged> {
    seq(|found|, i requires 0 <= i < |found| => Held(es, found[i]))
  }

  /* --------------------------------- fresh results ------------------------------ */

  function RowCount(rs: seq<RouteResult>): nat {
    if rs == [] then 0 else RowCount(rs[..|rs| - 1]) + |rs[|rs| - 1].candidates|
  }

  predicate RunsSemantic(k: nat, ans: Answers) {
    !ans.precise || RowCount(ans.structured) < (k + 1) / 2
  }

  function Penalised(chunks: map<string, Chunk>, c: Merged): Merged {
    if c.chunkId in chunks && chunks[c.chunkId].superseded
    then c.(combinedScore := c.combinedScore * SUPERSEDED_PENALTY) else c
  }

  function PenaliseAll(chunks: map<string, Chunk>, cs: seq<Merged>): seq<Merged> {
    seq(|cs|, i requires 0 <= i < |cs| => Penalised(chunks, cs[i]))
  }

  /** Both merges and the penalty for superseded facts. */
  function Combined(chunks: map<string, Chunk>, k: nat, weights: Weights, ans: Answers): seq<Merged> {
    var structured := MergeOf(ans.structured, weights);
    PenaliseAll(chunks,
      if RunsSemantic(k, ans) then FoldAll(structured, MergeOf(ans.semantic, weights)) else structured)
  }

  /** The reranker's picks: needed, and then greedy, only when there are more than k candidates. */
  ghost predicate Picked(cfg: Config, all: seq<Merged>, k: nat, picks: seq<nat>) {
    |all| > k ==> |picks| == k && Mmr.InRange(picks, |all|)
                  && Mmr.Pool(all, cfg.texts.tokens, MMR_LAMBDA).Greedy(picks)
  }

  ghost function Reranked(all: seq<Merged>, k: nat, picks: seq<nat>): seq<Merged> {
    if |all| > k && Mmr.InRange(picks, |all|) then Mmr.ItemsAt(all, picks) else all
  }

  function Keep(cs: seq<Merged>, minScore: real): seq<Merged> {
    if cs == [] then []
    else
      var n := |cs| - 1;
      Keep(cs[..n], minScore) + if cs[n].combinedScore >= minScore then [cs[n]] else []
  }

  function KeepVisible(cs: seq<Merged>, visible: set<string>): seq<Merged> {
    if cs == [] then []
    else
      var n := |cs| - 1;
      KeepVisible(cs[..n], visible) + if cs[n].chunkId in visible then [cs[n]] else []
  }

  ghost function Fresh(chunks: map<string, Chunk>, input: Input, ans: Answers, picks: seq<nat>): seq<Merged> {
    var kept := Keep(Reranked(Combined(chunks, input.K(), input.weights, ans), input.K(), picks), input.MinScore());
    if input.Filtered() then KeepVisible(kept, ans.visible) else kept
  }

  /* ------------------------------------ recall ---------------------------------- */

  function WorkingSetFor(w: World, key: string): WorkingSet {
    if key in w.t0 then w.t0[key] else WorkingSet([], false)
  }

  predicate Live(w: World, q: (string, string)) {
    q in w.recalls && !w.recalls[q].invalidated && w.recalls[q].expiresAt > w.now
  }

  /** The working set after priming and searching, and what the search found. */
  function Searched(w: World, cfg: Config, input: Input, ans: Answers): (r: (WorkingSet, seq<Merged>))
    requires AllIn(ans.profiles, w.chunks)
  {
    var ws := Primed(w.chunks, WorkingSetFor(w, KeyOf(input)), ans.profiles, cfg.t0SizeLimit);
    var found := Found(cfg.texts, input.query, input.K(), ws.entries);
    (ws.(entries := BoostAll(ws.entries, found)), found)
  }

  /** Whether a recall that finds no live row throws before its results enter the caches. */
  predicate FailsEarly(k: nat, ans: Answers) {
    ans.fault.RoutesFail? || ans.fault.PromotionFails? || (RunsSemantic(k, ans) && ans.fault.EmbeddingFails?)
  }

  /** Below T0: a live row of cache.recall if there is one, else fresh routes. */
  ghost function BelowT0(w: World, cfg: Config, input: Input, ans: Answers, picks: seq<nat>, ws: WorkingSet): (World, Outcome) {
    var q, k := (input.query, ScopeKeyFor(input)), input.K();
    var reopened := w.(t0 := w.t0[KeyOf(input) := ws]);
    if ans.fault.ReadFails? then (reopened, Rejected)
    else if Live(w, q) then (reopened, Results(Take(Keep(w.recalls[q].topK, input.MinScore()), k), T1))
    else if FailsEarly(k, ans) then (reopened, Rejected)
    else FromRoutes(w, cfg, input, ans, ws, Fresh(w.chunks, input, ans, picks))
  }

  function FromRoutes(w: World, cfg: Config, input: Input, ans: Answers, ws: WorkingSet, served: seq<Merged>): (World, Outcome) {
    var filled := Filled(w, cfg, input, ws, served);
    if ans.fault.StoreFails? then (filled, Rejected) else (Stored(filled, cfg, input, served), Results(served, T2))
  }

  /** Fresh results enter the working set, then cache.recall. */
  function Filled(w: World, cfg: Config, input: Input, ws: WorkingSet, served: seq<Merged>): World {
    w.(t0 := w.t0[KeyOf(input) := ws.(entries := AddAll(ws.entries, served, cfg.t0SizeLimit))])
  }

  function Stored(w: World, cfg: Config, input: Input, served: seq<Merged>): World {
    w.(recalls := w.recalls[(input.query, ScopeKeyFor(input)) := RecallRow(served, false, w.now + cfg.ttlMs)])
  }

  /** One recall: T0 if it finds enough, else what lies below. */
  ghost function Recalled(w: World, cfg: Config, input: Input, ans: Answers, picks: seq<nat>): (World, Outcome)
    requires AllIn(ans.profiles, w.chunks)
  {
    var (ws, found) := Searched(w, cfg, input, ans);
    var hits := HeldAll(ws.entries, found);
    if |hits| >= (input.K() + 1) / 2 then
      (w.(t0 := w.t0[KeyOf(input) := ws.(entries := TouchAll(ws.entries, hits))]), Results(hits, T0))
    else BelowT0(w, cfg, input, ans, picks, ws)
  }

  /* ------------------------------------- edits ---------------------------------- */

  datatype EditOutcome =
    | Updated(reEmbedded: bool) | Forgotten(deletedRow: bool)
    | NotFound | WrongAgent | NoChanges | Failed

  function Evicted(t0: map<string, WorkingSet>, id: string): map<string, WorkingSet> {
    map key | key in t0 :: t0[key].(entries := Lru.Without(t0[key].entries, id))
  }

  function Busted(recalls: map<(string, string), RecallRow>): map<(string, string), RecallRow> {
    map q | q in recalls :: recalls[q].(invalidated := true)
  }

  /** The fan-out after an edit. bustOk: whether the statement on cache.recall succeeded; its
      failure is swallowed. */
  function Invalidated(w: World, id: string, bustOk: bool): World {
    w.(t0 := Evicted(w.t0, id), recalls := if bustOk then Busted(w.recalls) else w.recalls)
  }

  /** The caller's changes; a missing field is left alone. */
  datatype Changes = Changes(text: Option<string>, importance: Option<real>, retention: Option<Retention>)

  function Clamp(x: real): real {
    if x < 0.0 then 0.0 else if x > 1.0 then 1.0 else x
  }

  predicate Rewrites(c: Chunk, ch: Changes) {
    ch.text.Some? && ch.text.value != "" && ch.text.value != c.text
  }

  function Edited(c: Chunk, ch: Changes): Chunk {
    c.(text := if Rewrites(c, ch) then ch.text.value else c.text,
       importance := if ch.importance.Some? then Clamp(ch.importance.value) else c.importance,
       retention := if ch.retention.Some? then ch.retention.value else c.retention)
  }

  function UpdateStep(w: World, id: string, agent: string, ch: Changes, embedOk: bool, bustOk: bool): (World, EditOutcome) {
    if id !in w.chunks then (w, NotFound)
    else
      var c := w.chunks[id];
      if c.agent != agent then (w, WrongAgent)
      else if Rewrites(c, ch) && !embedOk then (w, Failed)
      else if !Rewrites(c, ch) && ch.importance.None? && ch.retention.None? then (w, NoChanges)
      else (Invalidated(w.(chunks := w.chunks[id := Edited(c, ch)]), id, bustOk), Updated(Rewrites(c, ch)))
  }

  /** blocked: another row still refers to the chunk, so the database refuses to delete it. */
  function ForgetStep(w: World, id: string, agent: string, hardDelete: bool, blocked: bool, bustOk: bool): (World, EditOutcome) {
    if id !in w.chunks then (w, NotFound)
    else if w.chunks[id].agent != agent then (w, WrongAgent)
    else if hardDelete && blocked then (w, Failed)
    else
      var chunks := if hardDelete then w.chunks - {id} else w.chunks[id := w.chunks[id].(retention := Trash)];
      (Invalidated(w.(chunks := chunks), id, bustOk), Forgotten(hardDelete))
  }

  /* ------------------------------ the running process --------------------------- */

  class Memory {
    const cfg: Config
    var chunks: map<string, Chunk>
    var registry: map<string, WorkingSet>
    var recalls: map<(string, string), RecallRow>
    var now: int

    constructor (cfg: Config, now: int)
      ensures this.cfg == cfg && View() == World(map[], map[], map[], now)
    {
      this.cfg, this.now := cfg, now;
      chunks, registry, recalls := map[], map[], map[];
    }

    function View(): World
      reads this
    {
      World(chunks, registry, recalls, now)
    }

    /** The reranker's picks are named so that the result is a function of them. */
    method Recall(input: Input, ans: Answers) returns (out: Outcome, ghost picks: seq<nat>)
      requires AllIn(ans.profiles, chunks)
      modifies `registry, `recalls
      ensures (View(), out) == Recalled(old(View()), cfg, input, ans, picks)
      ensures out.Results? && out.tier == T2 ==>
                Picked(cfg, Combined(chunks, input.K(), input.weights, ans), input.K(), picks)
    {
      var ws, found := OpenAndSearch(KeyOf(input), input, ans);
      var hits := HeldAll(ws.entries, found);
      if |hits| >= (input.K() + 1) / 2 {
        var touched := TouchLoop(ws.entries, hits);
        registry := registry[KeyOf(input) := ws.(entries := touched)];
        out, picks := Results(hits, T0), [];
      } else {
        out, picks := RecallBelowT0(input, ans, ws);
      }
    }

    method RecallBelowT0(input: Input, ans: Answers, ws: WorkingSet) returns (out: Outcome, ghost picks: seq<nat>)
      modifies `registry, `recalls
      ensures (View(), out) == BelowT0(old(View()), cfg, input, ans, picks, ws)
      ensures out.Results? && out.tier == T2 ==>
                Picked(cfg, Combined(chunks, input.K(), input.weights, ans), input.K(), picks)
    {
      var q := (input.query, ScopeKeyFor(input));
      picks := [];
      if ans.fault.ReadFails? {
        registry := registry[KeyOf(input) := ws];
        return Rejected, picks;
      }
      if Live(View(), q) {
        var cached := KeepLoop(recalls[q].topK, input.MinScore());
        registry := registry[KeyOf(input) := ws];
        return Results(Take(cached, input.K()), T1), picks;
      }
      if FailsEarly(input.K(), ans) {
        registry := registry[KeyOf(input) := ws];
        return Rejected, picks;
      }
      out, picks := RecallFromRoutes(input, ans, ws);
    }

    method RecallFromRoutes(input: Input, ans: Answers, ws: WorkingSet) returns (out: Outcome, ghost picks: seq<nat>)
      modifies `registry, `recalls
      ensures (View(), out) == FromRoutes(old(View()), cfg, input, ans, ws, Fresh(chunks, input, ans, picks))
      ensures Picked(cfg, Combined(chunks, input.K(), input.weights, ans), input.K(), picks)
    {
      var filtered;
      filtered, picks := RunRoutes(input, ans);
      out := CacheResults(input, ans, ws, filtered);
    }

    method CacheResults(input: Input, ans: Answers, ws: WorkingSet, filtered: seq<Merged>) returns (out: Outcome)
      modifies `registry, `recalls
      ensures (View(), out) == FromRoutes(old(View()), cfg, input, ans, ws, filtered)
    {
      Fill(input, ws, filtered);
      if ans.fault.StoreFails? { return Rejected; }
      recalls := recalls[(input.query, ScopeKeyFor(input)) := RecallRow(filtered, false, now + cfg.ttlMs)];
      out := Results(filtered, T2);
    }

    method Fill(input: Input, ws: WorkingSet, filtered: seq<Merged>)
      modifies `registry
      ensures View() == Filled(old(View()), cfg, input, ws, filtered)
    {
      var added := AddLoop(ws.entries, filtered, cfg.t0SizeLimit);
      registry := registry[KeyOf(input) := ws.(entries := added)];
    }

    method OpenAndSearch(key: string, input: Input, ans: Answers) returns (ws: WorkingSet, found: seq<Merged>)
      requires key == KeyOf(input) && AllIn(ans.profiles, chunks)
      ensures (ws, found) == Searched(View(), cfg, input, ans)
    {
      ws := WorkingSetFor(View(), key);
      if !ws.primed {
        ws := ws.(primed := true);
        var added := AddLoop(ws.entries, Profiles(chunks, ans.profiles), cfg.t0SizeLimit);
        ws := ws.(entries := added);
      }
      found := SearchLoop(cfg.texts, input.query, input.K(), ws.entries);
      var boosted := BoostLoop(ws.entries, found);
      ws := ws.(entries := boosted);
    }

    method RunRoutes(input: Input, ans: Answers) returns (filtered: seq<Merged>, ghost picks: seq<nat>)
      ensures filtered == Fresh(chunks, input, ans, picks)
      ensures Picked(cfg, Combined(chunks, input.K(), input.weights, ans), input.K(), picks)
    {
      var all := CombineLoop(chunks, input.K(), input.weights, ans);
      var reranked;
      reranked, picks := Mmr.MmrRerank(all, input.K(), MMR_LAMBDA, cfg.texts.tokens);
      filtered := KeepLoop(reranked, input.MinScore());
      if input.Filtered() {
        filtered := KeepVisible(filtered, ans.visible);
      }
    }

    method UpdateChunk(id: string, agent: string, ch: Changes, embedOk: bool, bustOk: bool) returns (out: EditOutcome)
      modifies this
      ensures (View(), out) == UpdateStep(old(View()), id, agent, ch, embedOk, bustOk)
    {
      if id !in chunks { return NotFound; }
      if chunks[id].agent != agent { return WrongAgent; }
      var row, clauses := chunks[id], 1;
      var reEmbedded := false;
      if ch.text.Some? && |ch.text.value| >= 1 && ch.text.value != chunks[id].text {
        if !embedOk { return Failed; }
        row := row.(text := ch.text.value);
        clauses := clauses + 1;
        reEmbedded := true;
      }
      if ch.importance.Some? {
        row := row.(importance := Clamp(ch.importance.value));
        clauses := clauses + 1;
      }
      if ch.retention.Some? {
        row := row.(retention := ch.retention.value);
        clauses := clauses + 1;
      }
      if clauses == 1 { return NoChanges; }
      chunks := chunks[id := row];
      InvalidateChunk(id, bustOk);
      out := Updated(reEmbedded);
    }

    method ForgetChunk(id: string, agent: string, hardDelete: bool, blocked: bool, bustOk: bool) returns (out: EditOutcome)
      modifies this
      ensures (View(), out) == ForgetStep(old(View()), id, agent, hardDelete, blocked, bustOk)
    {
      if id !in chunks { return NotFound; }
      if chunks[id].agent != agent { return WrongAgent; }
      if hardDelete {
        if blocked { return Failed; }
        chunks := chunks - {id};
      } else {
        chunks := chunks[id := chunks[id].(retention := Trash)];
      }
      InvalidateChunk(id, bustOk);
      out := Forgotten(hardDelete);
    }

    method InvalidateChunk(id: string, bustOk: bool)
      modifies `registry, `recalls
      ensures View() == Invalidated(old(View()), id, bustOk)
    {
      EvictFromAllWorkingSets(id);
      if bustOk {
        recalls := Busted(recalls);
      }
    }

    method EvictFromAllWorkingSets(id: string)
      modifies `registry
      ensures registry == Evicted(old(registry), id)
    {
      var left := registry.Keys;
      while left != {}
        invariant left <= registry.Keys == old(registry).Keys
        invariant forall key :: key in registry ==>
                    registry[key] == if key in left then old(registry)[key] else Evicted(old(registry), id)[key]
        decreases left
      {
        var key :| key in left;
        registry := registry[key := registry[key].(entries := Lru.Without(registry[key].entries, id))];
        left := left - {key};
      }
    }
  }

  method AddLoop(before: seq<Slot>, cs: seq<Merged>, cap: nat) returns (es: seq<Slot>)
    ensures es == AddAll(before, cs, cap)
  {
    es := before;
    for n := 0 to |cs|
      invariant es == AddAll(before, cs[..n], cap)
    {
      assert cs[..n + 1][..n] == cs[..n];
      es := Lru.WsAdd(es, cs[n].chunkId, cs[n], cap);
    }
    assert cs[..|cs|] == cs;
  }

  method TouchLoop(before: seq<Slot>, cs: seq<Merged>) returns (es: seq<Slot>)
    ensures es == TouchAll(before, cs)
  {
    es := before;
    for n := 0 to |cs|
      invariant es == TouchAll(before, cs[..n])
    {
      assert cs[..n + 1][..n] == cs[..n];
      es := Lru.WsTouch(es, cs[n].chunkId);
    }
    assert cs[..|cs|] == cs;
  }

  method SearchLoop(tx: Texts, query: string, limit: nat, es: seq<Slot>) returns (found: seq<Merged>)
    ensures found == Found(tx, query, limit, es)
  {
    var hits := [];
    for n := 0 to |es|
      invariant hits == Matching(tx, query, es[..n])
    {
      assert es[..n + 1][..n] == es[..n];
      var c := es[n].value.candidate;
      var rel := Relevance(tx, query, c.text);
      if rel > 0.0 {
        hits := hits + [c.(combinedScore := rel)];
      }
    }
    assert es[..|es|] == es;
    found := Take(SortByScore(hits), limit);
  }

  method BoostLoop(before: seq<Slot>, found: seq<Merged>) returns (es: seq<Slot>)
    ensures es == BoostAll(before, found)
  {
    es := before;
    for n := 0 to |found|
      invariant es == BoostAll(before, found[..n])
    {
      assert found[..n + 1][..n] == found[..n];
      es := BoostIn(es, found[n]);
    }
    assert found[..|found|] == found;
  }

  method KeepLoop(cs: seq<Merged>, minScore: real) returns (kept: seq<Merged>)
    ensures kept == Keep(cs, minScore)
  {
    kept := [];
    for n := 0 to |cs|
      invariant kept == Keep(cs[..n], minScore)
    {
      assert cs[..n + 1][..n] == cs[..n];
      if cs[n].combinedScore >= minScore {
        kept := kept + [cs[n]];
      }
    }
    assert cs[..|cs|] == cs;
  }

  method CombineLoop(chunks: map<string, Chunk>, k: nat, weights: Weights, ans: Answers) returns (all: seq<Merged>)
    ensures all == Combined(chunks, k, weights, ans)
  {
    all := MergeRoutes(ans.structured, weights);
    if RunsSemantic(k, ans) {
      var semanticResults := MergeRoutes(ans.semantic, weights);
      all := FoldSemantic(all, semanticResults);
    }
    ghost var folded := all;
    for n := 0 to |all|
      invariant |all| == |folded|
      invariant forall i :: 0 <= i < |all| ==> all[i] == if i < n then Penalised(chunks, folded[i]) else folded[i]
    {
      if all[n].chunkId in chunks && chunks[all[n].chunkId].superseded {
        all := all[n := all[n].(combinedScore := all[n].combinedScore * SUPERSEDED_PENALTY)];
      }
    }
    assert all == PenaliseAll(chunks, folded);
  }
}
