/** What every run of recalls and edits keeps: the caches agree with the chunk table, and what an
    agent is shown is its own. */
module RecallRuns {
  import opened SeqTools
  import opened Chunks
  import opened Ranking
  import opened RecallTiers
  import Lru
  import Mmr

  /* ------------------------------------ the runs -------------------------------- */

  datatype Event =
    | Recall(input: Input, ans: Answers, picks: seq<nat>)
    | Update(id: string, agent: string, ch: Changes, embedOk: bool, bustOk: bool)
    | Forget(id: string, agent: string, hardDelete: bool, blocked: bool, bustOk: bool)
    | Ingest(id: string, chunk: Chunk)
    | Reclassify(id: string, retention: Retention, superseded: bool)
    | Pass(ms: nat)
    | Restart

  /** Every route selects rows of the calling agent's chunks that are not ephemeral. */
  ghost predicate RowFrom(chunks: map<string, Chunk>, agent: string, row: Row) {
    && row.chunkId in chunks && row.text == chunks[row.chunkId].text
    && chunks[row.chunkId].agent == agent && chunks[row.chunkId].retention != Ephemeral
  }

  ghost predicate ResultFrom(chunks: map<string, Chunk>, agent: string, r: RouteResult) {
    forall i :: 0 <= i < |r.candidates| ==> RowFrom(chunks, agent, r.candidates[i])
  }

  ghost predicate RowsFrom(chunks: map<string, Chunk>, agent: string, rs: seq<RouteResult>) {
    forall i :: 0 <= i < |rs| ==> ResultFrom(chunks, agent, rs[i])
  }

  ghost predicate ProfilesFrom(chunks: map<string, Chunk>, agent: string, ids: seq<string>, cap: nat) {
    && AllIn(ids, chunks) && |ids| <= (if cap < 4 then 1 else cap / 2)
    && forall i :: 0 <= i < |ids| ==>
         var c := chunks[ids[i]];
         c.agent == agent && c.isProfile && c.retention != Trash && c.retention != Tombstone
  }

  ghost predicate Enabled(w: World, cfg: Config, e: Event) {
    match e
    case Recall(input, ans, picks) =>
      && ProfilesFrom(w.chunks, input.Agent(), ans.profiles, cfg.t0SizeLimit)
      && RowsFrom(w.chunks, input.Agent(), ans.structured)
      && RowsFrom(w.chunks, input.Agent(), ans.semantic)
      && Picked(cfg, Combined(w.chunks, input.K(), input.weights, ans), input.K(), picks)
    case Ingest(id, _) => id !in w.chunks
    case Reclassify(id, _, _) => id in w.chunks
    case _ => true
  }

  ghost function Step(w: World, cfg: Config, e: Event): World
    requires Enabled(w, cfg, e)
  {
    match e
    case Recall(input, ans, picks) => Recalled(w, cfg, input, ans, picks).0
    case Update(id, agent, ch, embedOk, bustOk) => UpdateStep(w, id, agent, ch, embedOk, bustOk).0
    case Forget(id, agent, hardDelete, blocked, bustOk) => ForgetStep(w, id, agent, hardDelete, blocked, bustOk).0
    case Ingest(id, chunk) => w.(chunks := w.chunks[id := chunk])
    case Reclassify(id, retention, superseded) =>
      w.(chunks := w.chunks[id := w.chunks[id].(retention := retention, superseded := superseded)])
    case Pass(ms) => w.(now := w.now + ms)
    case Restart => w.(t0 := map[])
  }

  ghost predicate StepAt(ws: seq<World>, cfg: Config, es: seq<Event>, i: nat)
    requires i < |es| && |ws| == |es| + 1
  {
    Enabled(ws[i], cfg, es[i]) && ws[i + 1] == Step(ws[i], cfg, es[i])
  }

  /** ws are the states around each event, from any table with both caches empty; a restart empties
      the working sets and leaves the tables. */
  ghost predicate Run(ws: seq<World>, cfg: Config, es: seq<Event>) {
    && |ws| == |es| + 1 && ws[0].t0 == map[] && ws[0].recalls == map[]
    && forall i :: 0 <= i < |es| ==> StepAt(ws, cfg, es, i)
  }

  /* ---------------------------------- the invariant ----------------------------- */

  /** A candidate names an existing chunk, carries its current text, and, with an owner given,
      belongs to that agent. */
  ghost predicate Good(chunks: map<string, Chunk>, owner: Option<string>, c: Merged) {
    && c.chunkId in chunks && c.text == chunks[c.chunkId].text
    && (owner.Some? ==> chunks[c.chunkId].agent == owner.value)
  }

  ghost predicate AllGood(chunks: map<string, Chunk>, owner: Option<string>, cs: seq<Merged>) {
    forall c :: c in cs ==> Good(chunks, owner, c)
  }

  ghost predicate SlotGood(chunks: map<string, Chunk>, owner: Option<string>, e: Slot) {
    e.key == e.value.candidate.chunkId && Good(chunks, owner, e.value.candidate)
  }

  ghost predicate AllHeld(chunks: map<string, Chunk>, owner: Option<string>, es: seq<Slot>) {
    forall e :: e in es ==> SlotGood(chunks, owner, e)
  }

  /** Whose a working set or a row is, as far as agent a is concerned (a may be left open). */
  function SetOwner(a: Option<string>, key: string): Option<string> {
    if a.Some? && SetTag(a.value) <= key then a else None
  }

  function RowOwner(a: Option<string>, scope: string): Option<string> {
    if a.Some? && RowTag(a.value) <= scope then a else None
  }

  ghost predicate SetsCoherent(w: World, a: Option<string>) {
    forall key :: key in w.t0 ==> AllHeld(w.chunks, SetOwner(a, key), w.t0[key].entries)
  }

  ghost predicate RowsCoherent(w: World, a: Option<string>) {
    forall q :: q in w.recalls && !w.recalls[q].invalidated ==> AllGood(w.chunks, RowOwner(a, q.1), w.recalls[q].topK)
  }

  /* --------------------------------- keys and agents ---------------------------- */

  predicate Comparable(x: string, y: string) { x <= y || y <= x }

  /** No key of one agent can be a key of the other. */
  predicate Apart(a: string, b: string) {
    !Comparable(SetTag(a), SetTag(b)) && !Comparable(RowTag(a), RowTag(b))
  }

  lemma {:induction false} KeysBeginWithTags(i: Input)
    ensures SetTag(i.Agent()) <= KeyOf(i) && RowTag(i.Agent()) <= ScopeKeyFor(i)
  {
    var s, u := Or(i.agentSessionId, "default"), Or(i.User(), "default");
    assert KeyOf(i) == SetTag(i.Agent()) + (s + "::" + u);
    var a := i.anchors;
    var rest := Or(a.cwd, "") + "|" + Or(a.branch, "") + "|" + Or(a.pr, "") + "|" + Or(a.file, "") + "|" +
                Or(a.session, "") + "|" + Or(i.timeBucket, "");
    assert ScopeKeyFor(i) == RowTag(i.Agent()) + (Or(i.User(), "") + ":" + Or(i.Chat(), "") + "|" + rest);
  }

  lemma {:induction false} PrefixesCompare(x: string, y: string, s: string)
    requires x <= s && y <= s
    ensures Comparable(x, y)
  {
    if |x| <= |y| { assert x == s[..|x|] == y[..|x|]; } else { assert y == s[..|y|] == x[..|y|]; }
  }

  predicate ShareSet(a: string, b: string, i: Input, j: Input) {
    i.Agent() == a && j.Agent() == b && KeyOf(i) == KeyOf(j)
  }

  predicate ShareRow(a: string, b: string, i: Input, j: Input) {
    i.Agent() == a && j.Agent() == b && ScopeKeyFor(i) == ScopeKeyFor(j)
  }

  /** A recall by an agent for a session and a user, with everything else left out. */
  function Ask(agent: string, session: string, user: string): Input {
    Input("", Some(agent), Some(session), Some(Viewer(Some(user), None)), Anchors(None, None, None, None, None),
          None, None, None, map[])
  }

  lemma {:induction false} AskKeys(agent: string, session: string, user: string)
    ensures KeyOf(Ask(agent, session, user)) == SetTag(agent) + session + "::" + user
    ensures ScopeKeyFor(Ask(agent, session, user)) == RowTag(agent) + user + ":" + "" + "|" + "|||||"
  {
    assert "" + "|" + "" + "|" + "" + "|" + "" + "|" + "" + "|" + "" == "|||||";
  }

  lemma {:induction false} ExtendedTagsShare(a: string, b: string)
    ensures SetTag(a) <= SetTag(b) ==> exists i, j :: ShareSet(a, b, i, j)
    ensures RowTag(a) <= RowTag(b) ==> exists i, j :: ShareRow(a, b, i, j)
  {
    if SetTag(a) <= SetTag(b) {
      var d := SetTag(b)[|SetTag(a)|..];
      var i, j := Ask(a, d, ""), Ask(b, "", "");
      assert SetTag(a) + d == SetTag(b) == SetTag(b) + "";
      assert KeyOf(i) == KeyOf(j) by { AskKeys(a, d, ""); AskKeys(b, "", ""); }
      assert ShareSet(a, b, i, j);
    }
    if RowTag(a) <= RowTag(b) {
      var d := RowTag(b)[|RowTag(a)|..];
      var i, j := Ask(a, "", d), Ask(b, "", "");
      assert RowTag(a) + d == RowTag(b) == RowTag(b) + "";
      assert ScopeKeyFor(i) == ScopeKeyFor(j) by { AskKeys(a, "", d); AskKeys(b, "", ""); }
      assert ShareRow(a, b, i, j);
    }
  }

  /** Recalls by two agents can share a cache key exactly when one agent's tag begins the other's. */
  lemma {:induction false} SharedKeysIff(a: string, b: string)
    ensures (exists i, j :: ShareSet(a, b, i, j)) <==> Comparable(SetTag(a), SetTag(b))
    ensures (exists i, j :: ShareRow(a, b, i, j)) <==> Comparable(RowTag(a), RowTag(b))
  {
    ExtendedTagsShare(a, b);
    ExtendedTagsShare(b, a);
    forall i, j | ShareSet(a, b, i, j) ensures Comparable(SetTag(a), SetTag(b)) {
      KeysBeginWithTags(i);
      KeysBeginWithTags(j);
      PrefixesCompare(SetTag(a), SetTag(b), KeyOf(i));
    }
    forall i, j | ShareRow(a, b, i, j) ensures Comparable(RowTag(a), RowTag(b)) {
      KeysBeginWithTags(i);
      KeysBeginWithTags(j);
      PrefixesCompare(RowTag(a), RowTag(b), ScopeKeyFor(i));
    }
    forall i, j | ShareSet(b, a, i, j) ensures ShareSet(a, b, j, i) {}
    forall i, j | ShareRow(b, a, i, j) ensures ShareRow(a, b, j, i) {}
  }

  lemma {:induction false} PlainTagsDiffer(a: string, b: string)
    requires ':' !in b && '|' !in b && a != b
    ensures !(SetTag(a) <= SetTag(b)) && !(RowTag(a) <= RowTag(b))
  {
    if |a| < |b| {
      assert SetTag(a)[|a|] == ':' && SetTag(b)[|a|] == b[|a|];
      assert RowTag(a)[|a| + 6] == '|' && RowTag(b)[|a| + 6] == b[|a|];
    } else if |a| == |b| {
      assert SetTag(a)[..|a|] == a && SetTag(b)[..|a|] == b;
      assert RowTag(a)[6..6 + |a|] == a && RowTag(b)[6..6 + |a|] == b;
    } else {
      assert |SetTag(a)| > |SetTag(b)| && |RowTag(a)| > |RowTag(b)|;
    }
  }

  /** Different agent ids without ':' and '|' never share a key. */
  lemma {:induction false} PlainAgentsAreApart(a: string, b: string)
    requires ':' !in a && '|' !in a && ':' !in b && '|' !in b && a != b
    ensures Apart(a, b)
  {
    PlainTagsDiffer(a, b);
    PlainTagsDiffer(b, a);
  }

  /** With "::" in an agent id two agents do share a working set. */
  lemma {:induction false} AgentsWithColonsShare()
    ensures ShareSet("main", "main::x", Ask("main", "x::s", "u"), Ask("main::x", "s", "u"))
  {
    AskKeys("main", "x::s", "u");
    AskKeys("main::x", "s", "u");
    var tail := "s::u";
    assert SetTag("main") + "x::s" + "::" + "u" == "main::x::" + tail;
    assert SetTag("main::x") + "s" + "::" + "u" == "main::x::" + tail;
  }

  /* ------------------------- fresh rows are current and own --------------------- */

  ghost predicate EntriesFrom(chunks: map<string, Chunk>, agent: string, es: seq<Entry>) {
    forall i :: 0 <= i < |es| ==> RowFrom(chunks, agent, es[i].row)
  }

  lemma {:induction false} RowEntriesFrom(chunks: map<string, Chunk>, agent: string, route: Route, wt: real, rows: seq<Row>)
    requires forall i :: 0 <= i < |rows| ==> RowFrom(chunks, agent, rows[i])
    ensures EntriesFrom(chunks, agent, RowEntries(route, wt, rows))
  {
    if rows != [] { RowEntriesFrom(chunks, agent, route, wt, rows[..|rows| - 1]); }
  }

  lemma {:induction false} FlatMapFrom(chunks: map<string, Chunk>, agent: string, rs: seq<RouteResult>, w: Weights)
    requires RowsFrom(chunks, agent, rs)
    ensures EntriesFrom(chunks, agent, Entries(rs, w))
  {
    if rs != [] {
      FlatMapFrom(chunks, agent, rs[1..], w);
      assert ResultFrom(chunks, agent, rs[0]);
      RowEntriesFrom(chunks, agent, rs[0].route, WeightOf(w, rs[0].route), rs[0].candidates);
    }
  }

  lemma {:induction false} SummaryIsGood(chunks: map<string, Chunk>, agent: string, es: seq<Entry>, id: string)
    requires EntriesFrom(chunks, agent, es) && Mentions(es, id)
    ensures Good(chunks, Some(agent), Summary(es, id))
  {
    assert RowFrom(chunks, agent, es[0].row);
    if es[0].row.chunkId != id {
      var i :| 0 <= i < |es| && es[i].row.chunkId == id;
      assert es[1..][i - 1] == es[i];
      SummaryIsGood(chunks, agent, es[1..], id);
    }
  }

  lemma {:induction false} SummariesAreGood(chunks: map<string, Chunk>, agent: string, rs: seq<RouteResult>, w: Weights, cs: seq<Merged>)
    requires RowsFrom(chunks, agent, rs) && Summarises(cs, Entries(rs, w))
    ensures AllGood(chunks, Some(agent), cs)
  {
    FlatMapFrom(chunks, agent, rs, w);
    forall c | c in cs ensures Good(chunks, Some(agent), c) {
      SummaryIsGood(chunks, agent, Entries(rs, w), c.chunkId);
    }
  }

  lemma {:induction false} CombinedIsGood(chunks: map<string, Chunk>, agent: string, k: nat, w: Weights, ans: Answers)
    requires RowsFrom(chunks, agent, ans.structured)
    requires RowsFrom(chunks, agent, ans.semantic)
    ensures AllGood(chunks, Some(agent), Combined(chunks, k, w, ans))
  {
    if RunsSemantic(k, ans) {
      var all := FoldAll(MergeOf(ans.structured, w), MergeOf(ans.semantic, w));
      TwoStagesAreOneMerge(ans.structured, ans.semantic, w);
      SummariesAreGood(chunks, agent, ans.structured + ans.semantic, w, all);
      PenalisedIsGood(chunks, Some(agent), all);
    } else {
      MergeSummarises(ans.structured, w);
      SummariesAreGood(chunks, agent, ans.structured, w, MergeOf(ans.structured, w));
      PenalisedIsGood(chunks, Some(agent), MergeOf(ans.structured, w));
    }
  }

  lemma {:induction false} PenalisedIsGood(chunks: map<string, Chunk>, o: Option<string>, cs: seq<Merged>)
    requires AllGood(chunks, o, cs)
    ensures AllGood(chunks, o, PenaliseAll(chunks, cs))
  {
    forall c | c in PenaliseAll(chunks, cs) ensures Good(chunks, o, c) {
      var i :| 0 <= i < |cs| && c == Penalised(chunks, cs[i]);
      assert cs[i] in cs;
    }
  }

  lemma {:induction false} KeepIsGood(chunks: map<string, Chunk>, o: Option<string>, cs: seq<Merged>, minScore: real, visible: set<string>)
    requires AllGood(chunks, o, cs)
    ensures AllGood(chunks, o, Keep(cs, minScore)) && AllGood(chunks, o, KeepVisible(cs, visible))
  {
    if cs != [] { KeepIsGood(chunks, o, cs[..|cs| - 1], minScore, visible); }
  }

  lemma {:induction false} FreshIsGood(chunks: map<string, Chunk>, input: Input, ans: Answers, picks: seq<nat>)
    requires RowsFrom(chunks, input.Agent(), ans.structured)
    requires RowsFrom(chunks, input.Agent(), ans.semantic)
    ensures AllGood(chunks, Some(input.Agent()), Fresh(chunks, input, ans, picks))
  {
    var o := Some(input.Agent());
    var all := Combined(chunks, input.K(), input.weights, ans);
    CombinedIsGood(chunks, input.Agent(), input.K(), input.weights, ans);
    var reranked := Reranked(all, input.K(), picks);
    assert AllGood(chunks, o, reranked);
    KeepIsGood(chunks, o, reranked, input.MinScore(), {});
    KeepIsGood(chunks, o, Keep(reranked, input.MinScore()), 0.0, ans.visible);
  }

  /* --------------------------- working sets stay coherent ----------------------- */

  lemma {:induction false} FindIsGood(chunks: map<string, Chunk>, o: Option<string>, es: seq<Slot>, id: string)
    requires AllHeld(chunks, o, es)
    ensures var f := Lru.Find(es, id);
            f.Some? ==> f.value.candidate.chunkId == id && Good(chunks, o, f.value.candidate)
  {
    Lru.FindInKeySet(es, id);
    if Lru.Find(es, id).Some? { assert Lru.Entry(id, Lru.Find(es, id).value) in es; }
  }

  lemma {:induction false} BumpHeld(chunks: map<string, Chunk>, o: Option<string>, es: seq<Slot>, id: string, h: Lru.Held<Merged>)
    requires AllHeld(chunks, o, es) && h.candidate.chunkId == id && Good(chunks, o, h.candidate)
    ensures AllHeld(chunks, o, Lru.Bump(es, id, h))
  {
    Lru.BumpMembers(es, id, h, 0);
  }

  lemma {:induction false} AddHeld(chunks: map<string, Chunk>, o: Option<string>, es: seq<Slot>, c: Merged, cap: nat)
    requires AllHeld(chunks, o, es) && Good(chunks, o, c)
    ensures AllHeld(chunks, o, Lru.WsAdd(es, c.chunkId, c, cap))
  {
    var found: Option<Lru.Held<Merged>> := Lru.Find(es, c.chunkId);
    if found.Some? {
      BumpHeld(chunks, o, es, c.chunkId, Lru.Held(c, found.value.hits));
    }
  }

  lemma {:induction false} AddAllHeld(chunks: map<string, Chunk>, o: Option<string>, es: seq<Slot>, cs: seq<Merged>, cap: nat)
    requires AllHeld(chunks, o, es) && AllGood(chunks, o, cs)
    ensures AllHeld(chunks, o, AddAll(es, cs, cap))
  {
    if cs != [] {
      var n := |cs| - 1;
      AddAllHeld(chunks, o, es, cs[..n], cap);
      AddHeld(chunks, o, AddAll(es, cs[..n], cap), cs[n], cap);
    }
  }

  lemma {:induction false} TouchAllHeld(chunks: map<string, Chunk>, o: Option<string>, es: seq<Slot>, cs: seq<Merged>)
    requires AllHeld(chunks, o, es)
    ensures AllHeld(chunks, o, TouchAll(es, cs))
  {
    if cs != [] {
      var n := |cs| - 1;
      var before := TouchAll(es, cs[..n]);
      TouchAllHeld(chunks, o, es, cs[..n]);
      FindIsGood(chunks, o, before, cs[n].chunkId);
      var found: Option<Lru.Held<Merged>> := Lru.Find(before, cs[n].chunkId);
      if found.Some? {
        BumpHeld(chunks, o, before, cs[n].chunkId, Lru.Held(found.value.candidate, found.value.hits + 1));
      }
    }
  }

  lemma {:induction false} BoostInHeld(chunks: map<string, Chunk>, o: Option<string>, es: seq<Slot>, f: Merged)
    requires AllHeld(chunks, o, es)
    ensures AllHeld(chunks, o, BoostIn(es, f))
  {
    if es != [] {
      assert es[0] in es && SlotGood(chunks, o, es[0]);
      assert forall e :: e in es[1..] ==> e in es;
      BoostInHeld(chunks, o, es[1..], f);
    }
  }

  lemma {:induction false} BoostAllHeld(chunks: map<string, Chunk>, o: Option<string>, es: seq<Slot>, found: seq<Merged>)
    requires AllHeld(chunks, o, es)
    ensures AllHeld(chunks, o, BoostAll(es, found))
  {
    if found != [] {
      BoostAllHeld(chunks, o, es, found[..|found| - 1]);
      BoostInHeld(chunks, o, BoostAll(es, found[..|found| - 1]), found[|found| - 1]);
    }
  }

  lemma {:induction false} MatchingIsGood(chunks: map<string, Chunk>, o: Option<string>, tx: Texts, query: string, es: seq<Slot>)
    requires AllHeld(chunks, o, es)
    ensures AllGood(chunks, o, Matching(tx, query, es))
  {
    if es != [] {
      MatchingIsGood(chunks, o, tx, query, es[..|es| - 1]);
      assert es[|es| - 1] in es;
    }
  }

  lemma {:induction false} FoundIsGood(chunks: map<string, Chunk>, o: Option<string>, tx: Texts, query: string, k: nat, es: seq<Slot>)
    requires AllHeld(chunks, o, es)
    ensures AllGood(chunks, o, Found(tx, query, k, es))
  {
    var matching := Matching(tx, query, es);
    MatchingIsGood(chunks, o, tx, query, es);
    SortPermutes(matching);
    forall c | c in SortByScore(matching) ensures Good(chunks, o, c) {
      assert c in multiset(SortByScore(matching));
      assert c in matching;
    }
  }

  lemma {:induction false} HeldAllIsGood(chunks: map<string, Chunk>, o: Option<string>, es: seq<Slot>, found: seq<Merged>)
    requires AllHeld(chunks, o, es) && AllGood(chunks, o, found)
    ensures AllGood(chunks, o, HeldAll(es, found))
  {
    forall c | c in HeldAll(es, found) ensures Good(chunks, o, c) {
      var i :| 0 <= i < |found| && c == Held(es, found[i]);
      FindIsGood(chunks, o, es, found[i].chunkId);
    }
  }

  /* ------------------------------- one recall keeps it -------------------------- */

  /** Agent a is left open, or the recalling agent is a, or they can share no key. */
  ghost predicate Clear(a: Option<string>, agent: string) {
    a.None? || a.value == agent || Apart(a.value, agent)
  }

  lemma {:induction false} OwnersOfKeys(a: Option<string>, input: Input)
    requires Clear(a, input.Agent())
    ensures var agent := input.Agent();
            && SetOwner(a, KeyOf(input)) == (if a == Some(agent) then a else None)
            && RowOwner(a, ScopeKeyFor(input)) == (if a == Some(agent) then a else None)
  {
    KeysBeginWithTags(input);
    if a.Some? && a.value != input.Agent() {
      if SetTag(a.value) <= KeyOf(input) { PrefixesCompare(SetTag(a.value), SetTag(input.Agent()), KeyOf(input)); }
      if RowTag(a.value) <= ScopeKeyFor(input) { PrefixesCompare(RowTag(a.value), RowTag(input.Agent()), ScopeKeyFor(input)); }
    }
  }

  lemma {:induction false} SearchedIsGood(w: World, cfg: Config, a: Option<string>, input: Input, ans: Answers)
    requires SetsCoherent(w, a) && Clear(a, input.Agent())
    requires ProfilesFrom(w.chunks, input.Agent(), ans.profiles, cfg.t0SizeLimit)
    ensures var (ws, found) := Searched(w, cfg, input, ans);
            var o := SetOwner(a, KeyOf(input));
            AllHeld(w.chunks, o, ws.entries) && AllGood(w.chunks, o, HeldAll(ws.entries, found))
  {
    var key := KeyOf(input);
    var o := SetOwner(a, key);
    OwnersOfKeys(a, input);
    var ws := WorkingSetFor(w, key);
    assert AllHeld(w.chunks, o, ws.entries);
    var profiles := Profiles(w.chunks, ans.profiles);
    AddAllHeld(w.chunks, o, ws.entries, profiles, cfg.t0SizeLimit);
    var primed := Primed(w.chunks, ws, ans.profiles, cfg.t0SizeLimit);
    var found := Found(cfg.texts, input.query, input.K(), primed.entries);
    FoundIsGood(w.chunks, o, cfg.texts, input.query, input.K(), primed.entries);
    BoostAllHeld(w.chunks, o, primed.entries, found);
    HeldAllIsGood(w.chunks, o, BoostAll(primed.entries, found), found);
  }

  /** What one recall returns is good for its owner, unless it comes from a row that is not. */
  ghost predicate OutcomeGood(w: World, a: Option<string>, input: Input, out: Outcome) {
    out.Results? && (out.tier == T1 ==> RowsCoherent(w, a)) ==>
      AllGood(w.chunks, if a == Some(input.Agent()) then a else None, out.results)
  }

  lemma {:induction false} ServedKeeps(w: World, cfg: Config, a: Option<string>, input: Input, ws: WorkingSet, served: seq<Merged>)
    requires SetsCoherent(w, a)
    requires AllHeld(w.chunks, SetOwner(a, KeyOf(input)), ws.entries)
    requires AllGood(w.chunks, SetOwner(a, KeyOf(input)), served)
    requires RowOwner(a, ScopeKeyFor(input)) == SetOwner(a, KeyOf(input))
    ensures var filled := Filled(w, cfg, input, ws, served);
            && SetsCoherent(filled, a) && SetsCoherent(Stored(filled, cfg, input, served), a)
            && (RowsCoherent(w, a) ==> RowsCoherent(filled, a) && RowsCoherent(Stored(filled, cfg, input, served), a))
  {
    AddAllHeld(w.chunks, SetOwner(a, KeyOf(input)), ws.entries, served, cfg.t0SizeLimit);
  }

  lemma {:induction false} ReopenedKeeps(w: World, a: Option<string>, key: string, ws: WorkingSet)
    requires SetsCoherent(w, a) && AllHeld(w.chunks, SetOwner(a, key), ws.entries)
    ensures SetsCoherent(w.(t0 := w.t0[key := ws]), a)
    ensures RowsCoherent(w, a) ==> RowsCoherent(w.(t0 := w.t0[key := ws]), a)
  {
  }

  lemma {:induction false} RowHitIsGood(w: World, a: Option<string>, input: Input, q: (string, string))
    requires RowsCoherent(w, a) && Live(w, q)
    ensures AllGood(w.chunks, RowOwner(a, q.1), Take(Keep(w.recalls[q].topK, input.MinScore()), input.K()))
  {
    KeepIsGood(w.chunks, RowOwner(a, q.1), w.recalls[q].topK, input.MinScore(), {});
  }

  lemma {:induction false} BelowT0Keeps(w: World, cfg: Config, a: Option<string>, input: Input, ans: Answers,
                                       picks: seq<nat>, ws: WorkingSet)
    requires SetsCoherent(w, a) && Clear(a, input.Agent())
    requires AllHeld(w.chunks, SetOwner(a, KeyOf(input)), ws.entries)
    requires RowsFrom(w.chunks, input.Agent(), ans.structured)
    requires RowsFrom(w.chunks, input.Agent(), ans.semantic)
    ensures var r := BelowT0(w, cfg, input, ans, picks, ws);
            SetsCoherent(r.0, a) && (RowsCoherent(w, a) ==> RowsCoherent(r.0, a)) && OutcomeGood(w, a, input, r.1)
  {
    var q, o := (input.query, ScopeKeyFor(input)), SetOwner(a, KeyOf(input));
    OwnersOfKeys(a, input);
    ReopenedKeeps(w, a, KeyOf(input), ws);
    if Live(w, q) {
      if RowsCoherent(w, a) { RowHitIsGood(w, a, input, q); }
    } else {
      var served := Fresh(w.chunks, input, ans, picks);
      FreshIsGood(w.chunks, input, ans, picks);
      ServedKeeps(w, cfg, a, input, ws, served);
    }
  }

  lemma {:induction false} RecallKeeps(w: World, cfg: Config, a: Option<string>, input: Input, ans: Answers, picks: seq<nat>)
    requires Enabled(w, cfg, Recall(input, ans, picks)) && SetsCoherent(w, a) && Clear(a, input.Agent())
    ensures var r := Recalled(w, cfg, input, ans, picks);
            SetsCoherent(r.0, a) && (RowsCoherent(w, a) ==> RowsCoherent(r.0, a)) && OutcomeGood(w, a, input, r.1)
  {
    var (ws, found) := Searched(w, cfg, input, ans);
    var o := SetOwner(a, KeyOf(input));
    SearchedIsGood(w, cfg, a, input, ans);
    OwnersOfKeys(a, input);
    var hits := HeldAll(ws.entries, found);
    if |hits| >= (input.K() + 1) / 2 {
      TouchAllHeld(w.chunks, o, ws.entries, hits);
    } else {
      BelowT0Keeps(w, cfg, a, input, ans, picks, ws);
    }
  }

  /* ----------------------------------- edits keep it ---------------------------- */

  /** An edit that rewrites or deletes the chunk while the statement on cache.recall fails. */
  ghost predicate Lapse(w: World, e: Event) {
    match e
    case Update(id, agent, ch, embedOk, bustOk) =>
      !bustOk && id in w.chunks && w.chunks[id].agent == agent && Rewrites(w.chunks[id], ch) && embedOk
    case Forget(id, agent, hardDelete, blocked, bustOk) =>
      !bustOk && id in w.chunks && w.chunks[id].agent == agent && hardDelete && !blocked
    case _ => false
  }

  /** An edit that took effect, and the statement that marks the rows of cache.recall with it. */
  ghost predicate Busts(w: World, e: Event) {
    match e
    case Update(id, agent, ch, embedOk, bustOk) => bustOk && UpdateStep(w, id, agent, ch, embedOk, bustOk).1.Updated?
    case Forget(id, agent, hardDelete, blocked, bustOk) =>
      bustOk && ForgetStep(w, id, agent, hardDelete, blocked, bustOk).1.Forgotten?
    case _ => false
  }

  /** chunks' may change anything about id, and nothing that matters about any other chunk. */
  ghost predicate SameBut(chunks: map<string, Chunk>, chunks': map<string, Chunk>, id: string) {
    forall j :: j in chunks && j != id ==>
      j in chunks' && chunks'[j].text == chunks[j].text && chunks'[j].agent == chunks[j].agent
  }

  lemma {:induction false} EvictedIsCoherent(w: World, a: Option<string>, chunks': map<string, Chunk>, id: string)
    requires SetsCoherent(w, a) && SameBut(w.chunks, chunks', id)
    ensures SetsCoherent(w.(chunks := chunks', t0 := Evicted(w.t0, id)), a)
  {
    var t0 := Evicted(w.t0, id);
    forall key | key in t0 ensures AllHeld(chunks', SetOwner(a, key), t0[key].entries) {
      var o, es := SetOwner(a, key), w.t0[key].entries;
      assert AllHeld(w.chunks, o, es);
      Lru.WithoutKeys(es, id);
      forall e | e in Lru.Without(es, id) ensures SlotGood(chunks', o, e) {
        assert e in es && SlotGood(w.chunks, o, e);
      }
    }
  }

  lemma {:induction false} InvalidatedKeeps(w: World, a: Option<string>, chunks': map<string, Chunk>, id: string, bustOk: bool)
    requires SetsCoherent(w, a) && SameBut(w.chunks, chunks', id)
    ensures var w' := Invalidated(w.(chunks := chunks'), id, bustOk);
            && SetsCoherent(w', a)
            && (bustOk ==> RowsCoherent(w', a))
            && (RowsCoherent(w.(chunks := chunks'), a) ==> RowsCoherent(w', a))
  {
    EvictedIsCoherent(w, a, chunks', id);
  }

  lemma {:induction false} UpdateKeeps(w: World, cfg: Config, a: Option<string>, e: Event)
    requires e.Update? && SetsCoherent(w, a)
    ensures var w' := Step(w, cfg, e);
            SetsCoherent(w', a) && (Busts(w, e) || (RowsCoherent(w, a) && !Lapse(w, e)) ==> RowsCoherent(w', a))
  {
    if e.id in w.chunks {
      var chunks' := w.chunks[e.id := Edited(w.chunks[e.id], e.ch)];
      InvalidatedKeeps(w, a, chunks', e.id, e.bustOk);
    }
  }

  lemma {:induction false} ForgetKeeps(w: World, cfg: Config, a: Option<string>, e: Event)
    requires e.Forget? && SetsCoherent(w, a)
    ensures var w' := Step(w, cfg, e);
            SetsCoherent(w', a) && (Busts(w, e) || (RowsCoherent(w, a) && !Lapse(w, e)) ==> RowsCoherent(w', a))
  {
    if e.id in w.chunks {
      if e.hardDelete {
        InvalidatedKeeps(w, a, w.chunks - {e.id}, e.id, e.bustOk);
      } else {
        var trashed := w.chunks[e.id := w.chunks[e.id].(retention := Trash)];
        InvalidatedKeeps(w, a, trashed, e.id, e.bustOk);
      }
    }
  }

  /** Every step keeps the caches coherent; only a lapse can spoil cache.recall, and the next edit
      whose statement succeeds repairs it. */
  lemma {:induction false} StepKeeps(w: World, cfg: Config, a: Option<string>, e: Event)
    requires Enabled(w, cfg, e) && SetsCoherent(w, a) && (e.Recall? ==> Clear(a, e.input.Agent()))
    ensures var w' := Step(w, cfg, e);
            SetsCoherent(w', a) && (Busts(w, e) || (RowsCoherent(w, a) && !Lapse(w, e)) ==> RowsCoherent(w', a))
  {
    match e
    case Recall(input, ans, picks) => RecallKeeps(w, cfg, a, input, ans, picks);
    case Update(_, _, _, _, _) => UpdateKeeps(w, cfg, a, e);
    case Forget(_, _, _, _, _) => ForgetKeeps(w, cfg, a, e);
    case Ingest(_, _) =>
    case Reclassify(_, _, _) =>
    case Pass(_) =>
    case Restart =>
  }

  /* ------------------------------ what a recall returns ------------------------- */

  lemma {:induction false} MatchingIff(tx: Texts, query: string, es: seq<Slot>, c: Merged)
    ensures c in Matching(tx, query, es) <==>
            exists e :: e in es && Relevance(tx, query, e.value.candidate.text) > 0.0
                        && c == e.value.candidate.(combinedScore := Relevance(tx, query, e.value.candidate.text))
  {
    if es != [] {
      var n := |es| - 1;
      MatchingIff(tx, query, es[..n], c);
      assert es == es[..n] + [es[n]];
    }
  }

  /** A T0 search returns at most k matches, most relevant first, and leaves out a match only for
      k others at least as relevant. */
  lemma {:induction false} SearchFindsTheBest(tx: Texts, query: string, k: nat, es: seq<Slot>, e: Slot)
    requires e in es
    ensures var found := Found(tx, query, k, es);
            var rel := Relevance(tx, query, e.value.candidate.text);
            && |found| <= k && Descending(found)
            && (forall f :: f in found ==> f in Matching(tx, query, es))
            && (rel > 0.0 ==> e.value.candidate.(combinedScore := rel) in found
                              || (|found| == k && forall f :: f in found ==> f.combinedScore >= rel))
  {
    var c := e.value.candidate;
    var rel := Relevance(tx, query, c.text);
    var matching := Matching(tx, query, es);
    var sorted := SortByScore(matching);
    SortPermutes(matching);
    forall f | f in sorted ensures f in matching {
      assert f in multiset(sorted);
    }
    MatchingIff(tx, query, es, c.(combinedScore := rel));
    if rel > 0.0 {
      assert c.(combinedScore := rel) in multiset(matching);
      TakeKeepsGreatest(sorted, k, c.(combinedScore := rel));
    }
  }

  /** Of a sorted list, cutting off c keeps k others scored no lower. */
  lemma {:induction false} TakeKeepsGreatest(sorted: seq<Merged>, k: nat, c: Merged)
    requires Descending(sorted) && c in sorted
    ensures var kept := Take(sorted, k);
            c in kept || (|kept| == k && forall f :: f in kept ==> f.combinedScore >= c.combinedScore)
  {
    var i :| 0 <= i < |sorted| && sorted[i] == c;
    if i >= k {
      forall f | f in sorted[..k] ensures f.combinedScore >= c.combinedScore {
        var j :| 0 <= j < k && sorted[j] == f;
      }
    } else {
      assert Take(sorted, k)[i] == sorted[i];
    }
  }

  lemma {:induction false} KeepIff(cs: seq<Merged>, minScore: real, visible: set<string>, c: Merged)
    ensures c in Keep(cs, minScore) <==> c in cs && c.combinedScore >= minScore
    ensures c in KeepVisible(cs, visible) <==> c in cs && c.chunkId in visible
    ensures |Keep(cs, minScore)| <= |cs| && |KeepVisible(cs, visible)| <= |cs|
  {
    if cs != [] {
      KeepIff(cs[..|cs| - 1], minScore, visible, c);
      assert cs == cs[..|cs| - 1] + [cs[|cs| - 1]];
    }
  }

  lemma {:induction false} RowHitRespects(w: World, input: Input, q: (string, string), c: Merged)
    requires q in w.recalls
    ensures var hits := Take(Keep(w.recalls[q].topK, input.MinScore()), input.K());
            |hits| <= input.K() && (c in hits ==> c.combinedScore >= input.MinScore())
  {
    KeepIff(w.recalls[q].topK, input.MinScore(), {}, c);
  }

  lemma {:induction false} FreshRespects(cfg: Config, chunks: map<string, Chunk>, input: Input, ans: Answers, picks: seq<nat>, c: Merged)
    requires Picked(cfg, Combined(chunks, input.K(), input.weights, ans), input.K(), picks)
    ensures var served := Fresh(chunks, input, ans, picks);
            && |served| <= input.K()
            && (c in served ==> c.combinedScore >= input.MinScore() && (input.Filtered() ==> c.chunkId in ans.visible))
  {
    var reranked := Reranked(Combined(chunks, input.K(), input.weights, ans), input.K(), picks);
    assert |reranked| <= input.K();
    KeepIff(reranked, input.MinScore(), {}, c);
    KeepIff(Keep(reranked, input.MinScore()), 0.0, ans.visible, c);
  }

  lemma {:induction false} BelowT0Respects(w: World, cfg: Config, input: Input, ans: Answers, picks: seq<nat>, ws: WorkingSet, c: Merged)
    requires Picked(cfg, Combined(w.chunks, input.K(), input.weights, ans), input.K(), picks)
    ensures var out := BelowT0(w, cfg, input, ans, picks, ws).1;
            out.Results? ==>
              && out.tier != T0 && |out.results| <= input.K()
              && (c in out.results ==> c.combinedScore >= input.MinScore())
              && (c in out.results && out.tier == T2 && input.Filtered() ==> c.chunkId in ans.visible)
  {
    var q := (input.query, ScopeKeyFor(input));
    if Live(w, q) { RowHitRespects(w, input, q, c); }
    FreshRespects(cfg, w.chunks, input, ans, picks, c);
  }

  /** A recall returns at most k results; below T0 they reach the minimum score, and fresh ones are
      visible to the viewer. */
  lemma {:induction false} RecallRespectsRequest(w: World, cfg: Config, input: Input, ans: Answers, picks: seq<nat>, c: Merged)
    requires AllIn(ans.profiles, w.chunks)
    requires Picked(cfg, Combined(w.chunks, input.K(), input.weights, ans), input.K(), picks)
    ensures var out := Recalled(w, cfg, input, ans, picks).1;
            out.Results? ==>
              && |out.results| <= input.K()
              && (c in out.results && out.tier != T0 ==> c.combinedScore >= input.MinScore())
              && (c in out.results && out.tier == T2 && input.Filtered() ==> c.chunkId in ans.visible)
  {
    var (ws, found) := Searched(w, cfg, input, ans);
    assert |found| <= input.K();
    BelowT0Respects(w, cfg, input, ans, picks, ws, c);
  }

  /* ------------------------------------ main results ---------------------------- */

  /** No lapse since the last edit whose statement on cache.recall succeeded. */
  ghost predicate LapsesHealed(ws: seq<World>, es: seq<Event>, n: nat)
    requires |ws| == |es| + 1 && n <= |es|
  {
    forall i :: 0 <= i < n && Lapse(ws[i], es[i]) ==> exists m :: i < m < n && Busts(ws[m], es[m])
  }

  lemma {:induction false} HealedBefore(ws: seq<World>, es: seq<Event>, n: nat)
    requires |ws| == |es| + 1 && 0 < n <= |es| && LapsesHealed(ws, es, n) && !Busts(ws[n - 1], es[n - 1])
    ensures LapsesHealed(ws, es, n - 1) && !Lapse(ws[n - 1], es[n - 1])
  {
    forall i | 0 <= i < n && Lapse(ws[i], es[i]) ensures exists m :: i < m < n - 1 && Busts(ws[m], es[m]) {
      var m :| i < m < n && Busts(ws[m], es[m]);
    }
  }

  ghost predicate AllClear(a: Option<string>, es: seq<Event>) {
    forall i :: 0 <= i < |es| && es[i].Recall? ==> Clear(a, es[i].input.Agent())
  }

  lemma {:induction false} RunKeeps(ws: seq<World>, cfg: Config, es: seq<Event>, a: Option<string>, n: nat)
    requires Run(ws, cfg, es) && AllClear(a, es) && n <= |es|
    ensures SetsCoherent(ws[n], a) && (LapsesHealed(ws, es, n) ==> RowsCoherent(ws[n], a))
  {
    if n > 0 {
      RunKeeps(ws, cfg, es, a, n - 1);
      assert StepAt(ws, cfg, es, n - 1);
      StepKeeps(ws[n - 1], cfg, a, es[n - 1]);
      if LapsesHealed(ws, es, n) && !Busts(ws[n - 1], es[n - 1]) { HealedBefore(ws, es, n); }
    }
  }

  /** In every reachable state every entry of every working set, and, unless a rewritten or deleted
      chunk slipped since the last successful invalidation, every result of every row of cache.recall
      not invalidated, names an existing chunk and carries its current text. */
  lemma {:induction false} CachesAgreeWithTable(ws: seq<World>, cfg: Config, es: seq<Event>, n: nat)
    requires Run(ws, cfg, es) && n <= |es|
    ensures SetsCoherent(ws[n], None)
    ensures LapsesHealed(ws, es, n) ==> RowsCoherent(ws[n], None)
  {
    RunKeeps(ws, cfg, es, None, n);
  }

  /** Every result of every recall, from whichever tier, names an existing chunk of the calling
      agent with its current text, when no other agent that recalls can share a key with it. */
  lemma {:induction false} RecallIsCurrentAndOwn(ws: seq<World>, cfg: Config, es: seq<Event>, n: nat)
    requires Run(ws, cfg, es) && n < |es| && es[n].Recall?
    requires AllClear(Some(es[n].input.Agent()), es)
    ensures StepAt(ws, cfg, es, n)
    ensures var out := Recalled(ws[n], cfg, es[n].input, es[n].ans, es[n].picks).1;
            out.Results? && (out.tier != T1 || LapsesHealed(ws, es, n)) ==>
              AllGood(ws[n].chunks, Some(es[n].input.Agent()), out.results)
  {
    assert StepAt(ws, cfg, es, n);
    var a := Some(es[n].input.Agent());
    RunKeeps(ws, cfg, es, a, n);
    RecallKeeps(ws[n], cfg, a, es[n].input, es[n].ans, es[n].picks);
  }

  /** A lapse leaves cache.recall agreeing with the table exactly when no row still in force holds
      the rewritten or deleted chunk. */
  lemma {:induction false} LapseIsHarmlessIff(w: World, cfg: Config, e: Event)
    requires RowsCoherent(w, None) && Lapse(w, e)
    ensures RowsCoherent(Step(w, cfg, e), None) <==>
            forall q, c :: q in w.recalls && !w.recalls[q].invalidated && c in w.recalls[q].topK ==> c.chunkId != e.id
  {
    var w' := Step(w, cfg, e);
    assert w'.recalls == w.recalls;
    forall c: Merged | Good(w.chunks, None, c) ensures Good(w'.chunks, None, c) <==> c.chunkId != e.id {}
  }
}
