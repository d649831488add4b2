/** How sharp the isolation of recall is: between agents, and between the viewers of one agent. The
    witnesses are short runs with one chunk; the conditions hold over all runs. */
module RecallIsolation {
  import opened SeqTools
  import opened Chunks
  import opened Ranking
  import opened RecallTiers
  import opened RecallRuns
  import Lru
  import Mmr
  import Strings

  /* ---------------------------- recalls of one chunk ---------------------------- */

  /** The same caller asking for one result with this text. */
  function AskFor(i: Input, text: string): (r: Input)
    ensures KeyOf(r) == KeyOf(i) && ScopeKeyFor(r) == ScopeKeyFor(i) && r.Agent() == i.Agent() && r.K() == 1
  {
    i.(query := text, maxResults := Some(1), minScore := None, weights := map[])
  }

  /** A working set holding nothing but a chunk with the very text asked for. */
  ghost predicate HoldsOnly(ws: WorkingSet, id: string, text: string) {
    && ws.primed && |ws.entries| == 1 && ws.entries[0].key == id
    && ws.entries[0].value.candidate.chunkId == id && ws.entries[0].value.candidate.text == text
  }

  lemma {:induction false} FindsTheOne(tx: Texts, ws: WorkingSet, id: string, text: string)
    requires HoldsOnly(ws, id, text)
    ensures var f := ws.entries[0].value.candidate.(combinedScore := 1.0);
            Found(tx, text, 1, ws.entries) == [f]
  {
    var es := ws.entries;
    var f := es[0].value.candidate.(combinedScore := 1.0);
    assert es[..0] == [] && Matching(tx, text, es[..0]) == [];
    assert Matching(tx, text, es) == [f];
    assert SortByScore([f]) == InsertByScore(f, SortByScore([f][1..])) && [f][1..] == [];
  }

  /** Such a working set answers, whoever asks, and holds the chunk still. */
  lemma {:induction false} TheOneIsShown(w: World, cfg: Config, input: Input, ans: Answers, picks: seq<nat>, id: string)
    requires AllIn(ans.profiles, w.chunks) && input.K() == 1
    requires HoldsOnly(Primed(w.chunks, WorkingSetFor(w, KeyOf(input)), ans.profiles, cfg.t0SizeLimit), id, input.query)
    ensures var r := Recalled(w, cfg, input, ans, picks);
            && r.1.Results? && r.1.tier == T0 && |r.1.results| == 1 && r.1.results[0].chunkId == id
            && KeyOf(input) in r.0.t0 && HoldsOnly(r.0.t0[KeyOf(input)], id, input.query)
            && r.0.chunks == w.chunks
  {
    var ws := Primed(w.chunks, WorkingSetFor(w, KeyOf(input)), ans.profiles, cfg.t0SizeLimit);
    var es := ws.entries;
    var f := es[0].value.candidate.(combinedScore := 1.0);
    FindsTheOne(cfg.texts, ws, id, input.query);
    BoostsTheOne(es, f);
    var boosted := BoostAll(es, [f]);
    var hits := HeldAll(boosted, [f]);
    assert hits == [boosted[0].value.candidate];
    TouchesTheOne(boosted, hits[0]);
  }

  lemma {:induction false} BoostsTheOne(es: seq<Slot>, f: Merged)
    requires |es| == 1 && es[0].key == f.chunkId
    ensures var c := Boost(es[0].value.candidate, f.combinedScore);
            BoostAll(es, [f]) == [es[0].(value := es[0].value.(candidate := c))]
  {
    assert [f][..0] == [] && BoostAll(es, [f][..0]) == es;
    assert es[1..] == [];
  }

  lemma {:induction false} TouchesTheOne(es: seq<Slot>, c: Merged)
    requires |es| == 1 && es[0].key == c.chunkId
    ensures TouchAll(es, [c]) == [Lru.Entry(c.chunkId, Lru.Held(es[0].value.candidate, es[0].value.hits + 1))]
  {
    assert [c][..0] == [] && TouchAll(es, [c][..0]) == es;
    assert es[1..] == [] && Lru.Without(es, c.chunkId) == [];
  }

  /* ------------------------------- runs step by step ---------------------------- */

  lemma {:induction false} StepAtKept(ws: seq<World>, ws': seq<World>, cfg: Config, es: seq<Event>, es': seq<Event>, i: nat)
    requires i < |es| && i < |es'| && |ws| == |es| + 1 && |ws'| == |es'| + 1
    requires ws'[i] == ws[i] && es'[i] == es[i] && ws'[i + 1] == ws[i + 1]
    requires StepAt(ws, cfg, es, i)
    ensures StepAt(ws', cfg, es', i)
  {
  }

  lemma {:induction false} RunSnoc(ws: seq<World>, cfg: Config, es: seq<Event>, e: Event, w: World)
    requires Run(ws, cfg, es) && Enabled(ws[|es|], cfg, e) && w == Step(ws[|es|], cfg, e)
    ensures Run(ws + [w], cfg, es + [e])
  {
    forall i | 0 <= i < |es| ensures StepAt(ws + [w], cfg, es + [e], i) {
      StepAtKept(ws, ws + [w], cfg, es, es + [e], i);
    }
  }

  const EMPTY := World(map[], map[], map[], 0)

  /** What the chunk of a witness run says; ingest takes no empty text. */
  const FACT := "likes tea"

  /** A profile of the caller's agent and nothing else is ingested. */
  function OneChunk(agent: string, id: string, text: string): World {
    EMPTY.(chunks := map[id := Chunk(agent, text, true, 0.0, Standard, false)])
  }

  lemma {:induction false} OneChunkRun(cfg: Config, agent: string, id: string, text: string) returns (ws: seq<World>, es: seq<Event>)
    ensures Run(ws, cfg, es) && |es| == 1 && es[0].Ingest? && ws[1] == OneChunk(agent, id, text)
  {
    var c := Chunk(agent, text, true, 0.0, Standard, false);
    ws, es := [EMPTY], [];
    RunSnoc(ws, cfg, es, Ingest(id, c), OneChunk(agent, id, text));
    ws, es := [EMPTY] + [OneChunk(agent, id, text)], [] + [Ingest(id, c)];
  }

  /** Nothing found by any route. */
  function Nothing(profiles: seq<string>): Answers {
    Answers(profiles, [], [], true, {}, NoFault)
  }

  /** One row by a precise anchor, visible to the viewer. */
  function OneRow(id: string, text: string): Answers {
    Answers([], [RouteResult(Anchor, [Row(id, text, 1.0)])], [], true, {id}, NoFault)
  }

  lemma {:induction false} OneRowEntry(id: string, text: string)
    ensures Entries([RouteResult(Anchor, [Row(id, text, 1.0)])], map[]) == [Entry(Anchor, Weighted(1.2, 1.0), Row(id, text, 1.0))]
  {
    var r := RouteResult(Anchor, [Row(id, text, 1.0)]);
    var e := Entry(Anchor, Weighted(1.2, 1.0), Row(id, text, 1.0));
    assert r.candidates[..0] == [] && RowEntries(Anchor, 1.2, r.candidates) == [e];
    FlatMapSnoc(EntriesOf(map[]), [], r);
    assert [] + [r] == [r] && [] + [e] == [e];
  }

  lemma {:induction false} OneEntryMerges(e: Entry)
    ensures var m := Merged(e.row.chunkId, e.row.text, [e.route], e.amount);
            SortByScore(AbsorbAll([e])) == [m]
  {
    var m := Merged(e.row.chunkId, e.row.text, [e.route], e.amount);
    assert [e][..0] == [] && AbsorbAll([e]) == [m];
    assert [m][1..] == [];
  }

  lemma {:induction false} OneRowCombines(id: string, text: string, agent: string)
    ensures var chunks := OneChunk(agent, id, text).chunks;
            && !RunsSemantic(1, OneRow(id, text))
            && Combined(chunks, 1, map[], OneRow(id, text)) == [Merged(id, text, [Anchor], Weighted(1.2, 1.0))]
  {
    var rs := OneRow(id, text).structured;
    assert rs[..0] == [] && RowCount(rs) == 1;
    OneRowEntry(id, text);
    OneEntryMerges(Entry(Anchor, Weighted(1.2, 1.0), Row(id, text, 1.0)));
  }

  /* ----------------------- the two ways to fill a working set -------------------- */

  /** Priming: the first recall of a session is shown the profile. */
  lemma {:induction false} PrimingShows(cfg: Config, j: Input, text: string, id: string) returns (after: World, out: Outcome)
    requires cfg.t0SizeLimit > 0
    ensures var w, e := OneChunk(j.Agent(), id, text), Recall(AskFor(j, text), Nothing([id]), []);
            Enabled(w, cfg, e) && (after, out) == Recalled(w, cfg, e.input, e.ans, e.picks) && after == Step(w, cfg, e)
    ensures out.Results? && out.tier == T0 && |out.results| == 1 && out.results[0].chunkId == id
    ensures after.chunks == OneChunk(j.Agent(), id, text).chunks
    ensures KeyOf(j) in after.t0 && HoldsOnly(after.t0[KeyOf(j)], id, text)
  {
    var w, input := OneChunk(j.Agent(), id, text), AskFor(j, text);
    PrimesTheOne(w.chunks, id, cfg.t0SizeLimit);
    TheOneIsShown(w, cfg, input, Nothing([id]), [], id);
    var r := Recalled(w, cfg, input, Nothing([id]), []);
    after, out := r.0, r.1;
  }

  lemma {:induction false} PrimesTheOne(chunks: map<string, Chunk>, id: string, cap: nat)
    requires cap > 0 && id in chunks
    ensures HoldsOnly(Primed(chunks, WorkingSet([], false), [id], cap), id, chunks[id].text)
  {
    var c := ProfileCandidate(chunks, id);
    assert Profiles(chunks, [id]) == [c];
    AddsTheOne(c, cap);
  }

  lemma {:induction false} AddsTheOne(c: Merged, cap: nat)
    requires cap > 0
    ensures AddAll([], [c], cap) == [Lru.Entry(c.chunkId, Lru.Held(c, 0))]
  {
    assert [c][..0] == [] && AddAll([], [c][..0], cap) == [];
  }

  /** A fresh row: it is shown, and then held in both caches. */
  lemma {:induction false} FreshRowIsCached(cfg: Config, j: Input, text: string, id: string) returns (after: World)
    requires cfg.t0SizeLimit > 0
    ensures var w, e := OneChunk(j.Agent(), id, text), Recall(AskFor(j, text), OneRow(id, text), []);
            Enabled(w, cfg, e) && after == Step(w, cfg, e)
    ensures var m := Merged(id, text, [Anchor], Weighted(1.2, 1.0));
            && after.chunks == OneChunk(j.Agent(), id, text).chunks && after.now == 0
            && after.t0.Keys == {KeyOf(j)} && HoldsOnly(after.t0[KeyOf(j)], id, text)
            && after.recalls == map[(text, ScopeKeyFor(j)) := RecallRow([m], false, cfg.ttlMs)]
  {
    var w, input, ans := OneChunk(j.Agent(), id, text), AskFor(j, text), OneRow(id, text);
    var m := Merged(id, text, [Anchor], Weighted(1.2, 1.0));
    OneRowCombines(id, text, j.Agent());
    OneRowIsEnabled(cfg, j, text, id);
    KeepsTheOne(m, id);
    assert Fresh(w.chunks, input, ans, []) == [m];
    AddsTheOne(m, cfg.t0SizeLimit);
    after := Step(w, cfg, Recall(input, ans, []));
  }

  lemma {:induction false} OneRowIsEnabled(cfg: Config, j: Input, text: string, id: string)
    ensures Enabled(OneChunk(j.Agent(), id, text), cfg, Recall(AskFor(j, text), OneRow(id, text), []))
  {
    OneRowCombines(id, text, j.Agent());
    var chunks, r := OneChunk(j.Agent(), id, text).chunks, OneRow(id, text).structured[0];
    assert ResultFrom(chunks, j.Agent(), r);
  }

  lemma {:induction false} KeepsTheOne(m: Merged, id: string)
    requires m.chunkId == id && m.combinedScore >= 0.0
    ensures Keep([m], 0.0) == [m] && KeepVisible([m], {id}) == [m]
  {
    assert [m][..0] == [];
  }

  /* ------------------------------ agents, exactly -------------------------------- */

  ghost predicate OnlyAgents(es: seq<Event>, a: string, b: string) {
    forall i :: 0 <= i < |es| && es[i].Recall? ==> es[i].input.Agent() == a || es[i].input.Agent() == b
  }

  /** A recall of agent a is shown chunks of its own only, those of cache.recall if it is healed. */
  ghost predicate OwnAt(w: World, cfg: Config, e: Event, a: string, healed: bool) {
    e.Recall? && Enabled(w, cfg, e) && e.input.Agent() == a ==>
      var out := Recalled(w, cfg, e.input, e.ans, e.picks).1;
      out.Results? && (out.tier != T1 || healed) ==> forall c :: c in out.results ==> c.chunkId in w.chunks && w.chunks[c.chunkId].agent == a
  }

  /** A run in which only a and b recall. */
  ghost predicate RunOf(ws: seq<World>, cfg: Config, es: seq<Event>, a: string, b: string) {
    Run(ws, cfg, es) && OnlyAgents(es, a, b)
  }

  ghost predicate Isolated(cfg: Config, a: string, b: string) {
    forall ws, es :: RunOf(ws, cfg, es, a, b) ==>
      forall n :: 0 <= n < |es| ==> OwnAt(ws[n], cfg, es[n], a, LapsesHealed(ws, es, n))
  }

  ghost predicate NoLapse(ws: seq<World>, es: seq<Event>)
    requires |ws| == |es| + 1
  {
    forall i :: 0 <= i < |es| ==> !Lapse(ws[i], es[i])
  }

  lemma {:induction false} RunOfSnoc(ws: seq<World>, cfg: Config, es: seq<Event>, a: string, b: string, e: Event, w: World)
    requires RunOf(ws, cfg, es, a, b) && NoLapse(ws, es) && Enabled(ws[|es|], cfg, e) && w == Step(ws[|es|], cfg, e)
    requires e.Recall? && (e.input.Agent() == a || e.input.Agent() == b)
    ensures RunOf(ws + [w], cfg, es + [e], a, b) && NoLapse(ws + [w], es + [e])
  {
    RunSnoc(ws, cfg, es, e, w);
    var ws', es' := ws + [w], es + [e];
    forall n | 0 <= n < |es'| ensures !Lapse(ws'[n], es'[n]) {
      if n < |es| { assert ws'[n] == ws[n] && es'[n] == es[n]; }
    }
  }

  /** One chunk of b, shown to b's caller as a profile. */
  lemma {:induction false} PrimedRun(cfg: Config, a: string, b: string, j: Input, id: string) returns (ws: seq<World>, es: seq<Event>)
    requires j.Agent() == b && cfg.t0SizeLimit > 0
    ensures RunOf(ws, cfg, es, a, b) && NoLapse(ws, es)
    ensures var w := ws[|es|];
            w.chunks == OneChunk(b, id, FACT).chunks && KeyOf(j) in w.t0 && HoldsOnly(w.t0[KeyOf(j)], id, FACT)
  {
    ws, es := OneChunkRun(cfg, b, id, FACT);
    var w, out := PrimingShows(cfg, j, FACT, id);
    var e := Recall(AskFor(j, FACT), Nothing([id]), []);
    RunOfSnoc(ws, cfg, es, a, b, e, w);
    ws, es := ws + [w], es + [e];
  }

  /** One chunk of b, found by a route for b's caller, and so in both caches. */
  lemma {:induction false} FreshRun(cfg: Config, a: string, b: string, j: Input, id: string) returns (ws: seq<World>, es: seq<Event>)
    requires j.Agent() == b && cfg.t0SizeLimit > 0
    ensures RunOf(ws, cfg, es, a, b) && NoLapse(ws, es)
    ensures |es| == 2 && es[0].Ingest? && es[1] == Recall(AskFor(j, FACT), OneRow(id, FACT), [])
    ensures var w, m := ws[|es|], Merged(id, FACT, [Anchor], Weighted(1.2, 1.0));
            && w.chunks == OneChunk(b, id, FACT).chunks && w.now == 0
            && w.t0.Keys == {KeyOf(j)} && HoldsOnly(w.t0[KeyOf(j)], id, FACT)
            && w.recalls == map[(FACT, ScopeKeyFor(j)) := RecallRow([m], false, cfg.ttlMs)]
  {
    ws, es := OneChunkRun(cfg, b, id, FACT);
    var w := FreshRowIsCached(cfg, j, FACT, id);
    var e := Recall(AskFor(j, FACT), OneRow(id, FACT), []);
    RunOfSnoc(ws, cfg, es, a, b, e, w);
    ws, es := ws + [w], es + [e];
  }

  /** What the second of two recalls is shown, the first having been answered with a chunk of b. */
  lemma {:induction false} SharedSetShows(cfg: Config, a: string, b: string, i: Input, j: Input)
    requires a != b && ShareSet(a, b, i, j) && cfg.t0SizeLimit > 0
    ensures !Isolated(cfg, a, b)
  {
    var ws, es := PrimedRun(cfg, a, b, j, "c");
    ShownToOther(cfg, a, b, i, ws, es, "c");
  }

  lemma {:induction false} ShownToOther(cfg: Config, a: string, b: string, i: Input, ws: seq<World>, es: seq<Event>, id: string)
    requires a != b && i.Agent() == a && RunOf(ws, cfg, es, a, b) && NoLapse(ws, es)
    requires var w := ws[|es|];
             id in w.chunks && w.chunks[id].agent == b && KeyOf(i) in w.t0 && HoldsOnly(w.t0[KeyOf(i)], id, FACT)
    ensures !Isolated(cfg, a, b)
  {
    var w, e := ws[|es|], Recall(AskFor(i, FACT), Nothing([]), []);
    TheOneIsShown(w, cfg, e.input, e.ans, [], id);
    NotIsolated(cfg, a, b, ws, es, e);
  }

  /** A last recall that shows a chunk of b refutes isolation. */
  lemma {:induction false} NotIsolated(cfg: Config, a: string, b: string, ws: seq<World>, es: seq<Event>, e: Event)
    requires RunOf(ws, cfg, es, a, b) && NoLapse(ws, es)
    requires e.Recall? && Enabled(ws[|es|], cfg, e) && e.input.Agent() == a && !OwnAt(ws[|es|], cfg, e, a, true)
    ensures !Isolated(cfg, a, b)
  {
    var w' := Step(ws[|es|], cfg, e);
    RunOfSnoc(ws, cfg, es, a, b, e, w');
    var ws', es', n := ws + [w'], es + [e], |es|;
    assert ws'[n] == ws[n] && es'[n] == e;
    OneRecallRefutes(cfg, a, b, ws', es', n);
  }

  lemma {:induction false} OneRecallRefutes(cfg: Config, a: string, b: string, ws: seq<World>, es: seq<Event>, n: nat)
    requires RunOf(ws, cfg, es, a, b) && n < |es| && !OwnAt(ws[n], cfg, es[n], a, LapsesHealed(ws, es, n))
    ensures !Isolated(cfg, a, b)
  {
  }

  lemma {:induction false} SharedRowShows(cfg: Config, a: string, b: string, i: Input, j: Input)
    requires a != b && ShareRow(a, b, i, j) && KeyOf(i) != KeyOf(j) && cfg.t0SizeLimit > 0 && cfg.ttlMs > 0
    ensures !Isolated(cfg, a, b)
  {
    var ws, es := FreshRun(cfg, a, b, j, "c");
    RowShownToOther(cfg, a, b, i, ws, es, Merged("c", FACT, [Anchor], Weighted(1.2, 1.0)));
  }

  lemma {:induction false} RowShownToOther(cfg: Config, a: string, b: string, i: Input, ws: seq<World>, es: seq<Event>, m: Merged)
    requires a != b && i.Agent() == a && RunOf(ws, cfg, es, a, b) && NoLapse(ws, es) && m.combinedScore >= 0.0
    requires var w := ws[|es|];
             && m.chunkId in w.chunks && w.chunks[m.chunkId].agent == b && KeyOf(i) !in w.t0
             && Live(w, (FACT, ScopeKeyFor(i))) && w.recalls[(FACT, ScopeKeyFor(i))].topK == [m]
    ensures !Isolated(cfg, a, b)
  {
    var w, e := ws[|es|], Recall(AskFor(i, FACT), Nothing([]), []);
    RowIsShown(cfg, w, i, FACT, m);
    NotIsolated(cfg, a, b, ws, es, e);
  }

  lemma {:induction false} RowIsShown(cfg: Config, w: World, i: Input, text: string, m: Merged)
    requires KeyOf(i) !in w.t0 && Live(w, (text, ScopeKeyFor(i))) && m.combinedScore >= 0.0
    requires w.recalls[(text, ScopeKeyFor(i))].topK == [m]
    ensures Recalled(w, cfg, AskFor(i, text), Nothing([]), []).1 == Results([m], T1)
  {
    KeepsTheOne(m, m.chunkId);
  }

  /** Two agents are isolated from each other, over all runs of their recalls with any edits, exactly
      when no two of their recalls can share a key of either cache. */
  lemma {:induction false} IsolatedIff(cfg: Config, a: string, b: string)
    requires a != b && cfg.t0SizeLimit > 0 && cfg.ttlMs > 0
    ensures Isolated(cfg, a, b) <==> Apart(a, b)
  {
    SharedKeysIff(a, b);
    if Apart(a, b) {
      forall ws: seq<World>, es: seq<Event> | RunOf(ws, cfg, es, a, b)
        ensures forall n :: 0 <= n < |es| ==> OwnAt(ws[n], cfg, es[n], a, LapsesHealed(ws, es, n)) {
        forall n | 0 <= n < |es| ensures OwnAt(ws[n], cfg, es[n], a, LapsesHealed(ws, es, n)) {
          if es[n].Recall? && es[n].input.Agent() == a { RecallIsCurrentAndOwn(ws, cfg, es, n); }
        }
      }
    } else if Comparable(SetTag(a), SetTag(b)) {
      var i, j :| ShareSet(a, b, i, j);
      SharedSetShows(cfg, a, b, i, j);
    } else {
      var i, j :| ShareRow(a, b, i, j);
      assert !ShareSet(a, b, i, j);
      SharedRowShows(cfg, a, b, i, j);
    }
  }

  /* --------------------------------- viewers, T1 --------------------------------- */

  /** Whether a user, in a chat, may see a chunk; "" for no user or no chat. */
  type Sees = (string, string, string) -> bool

  predicate SeesAs(sees: Sees, i: Input, id: string) {
    sees(Or(i.User(), ""), Or(i.Chat(), ""), id)
  }

  predicate SameViewer(i: Input, j: Input) {
    Or(i.User(), "") == Or(j.User(), "") && Or(i.Chat(), "") == Or(j.Chat(), "")
  }

  /** No bar in the agent, the user or the chat, and no colon in the user. */
  predicate Plain(i: Input) {
    '|' !in i.Agent() && '|' !in Or(i.User(), "") && ':' !in Or(i.User(), "") && '|' !in Or(i.Chat(), "")
  }

  /** A scope key of plain parts, cut where its agent and its viewer end. */
  lemma {:induction false} ScopeKeyParts(i: Input) returns (rest: string)
    ensures var viewer := Or(i.User(), "") + [':'] + Or(i.Chat(), "");
            && |ScopeKeyFor(i)| >= 6
            && ScopeKeyFor(i)[6..] == i.Agent() + ['|'] + ("viewer:" + (viewer + ['|'] + rest))
  {
    var a := i.anchors;
    rest := Or(a.cwd, "") + "|" + Or(a.branch, "") + "|" + Or(a.pr, "") + "|" + Or(a.file, "") + "|" +
            Or(a.session, "") + "|" + Or(i.timeBucket, "");
    var viewer := Or(i.User(), "") + [':'] + Or(i.Chat(), "");
    assert ScopeKeyFor(i) == "agent:" + (i.Agent() + ['|'] + ("viewer:" + (viewer + ['|'] + rest)));
  }

  /** Equal scope keys of plain callers belong to one agent and one viewer. */
  lemma {:induction false} ScopeKeyDeterminesViewer(i: Input, j: Input)
    requires Plain(i) && Plain(j) && ScopeKeyFor(i) == ScopeKeyFor(j)
    ensures i.Agent() == j.Agent() && SameViewer(i, j)
  {
    var r := ScopeKeyParts(i);
    var s := ScopeKeyParts(j);
    var u, v := Or(i.User(), "") + [':'] + Or(i.Chat(), ""), Or(j.User(), "") + [':'] + Or(j.Chat(), "");
    var x, y := u + ['|'] + r, v + ['|'] + s;
    Strings.FirstCharSplits('|', i.Agent(), "viewer:" + x, j.Agent(), "viewer:" + y);
    assert ("viewer:" + x)[7..] == x && ("viewer:" + y)[7..] == y;
    Strings.FirstCharSplits('|', u, r, v, s);
    Strings.FirstCharSplits(':', Or(i.User(), ""), Or(i.Chat(), ""), Or(j.User(), ""), Or(j.Chat(), ""));
  }

  /** Callers are plain, and the privacy lookup answers with chunks that the viewer may see. */
  ghost predicate Private(es: seq<Event>, sees: Sees) {
    forall i :: 0 <= i < |es| && es[i].Recall? ==>
      Plain(es[i].input) && forall id :: id in es[i].ans.visible ==> SeesAs(sees, es[i].input, id)
  }

  ghost predicate AllSeen(cs: seq<Merged>, sees: Sees, i: Input) {
    forall c :: c in cs ==> SeesAs(sees, i, c.chunkId)
  }

  /** Rows hold only what any plain viewer with their key may see. */
  ghost predicate RowsSeen(recalls: map<(string, string), RecallRow>, sees: Sees) {
    forall q, i: Input :: q in recalls && Plain(i) && i.Filtered() && ScopeKeyFor(i) == q.1 ==>
      AllSeen(recalls[q].topK, sees, i)
  }

  lemma {:induction false} FreshIsSeen(chunks: map<string, Chunk>, input: Input, ans: Answers, picks: seq<nat>, sees: Sees)
    requires input.Filtered() && forall id :: id in ans.visible ==> SeesAs(sees, input, id)
    ensures AllSeen(Fresh(chunks, input, ans, picks), sees, input)
  {
    var reranked := Reranked(Combined(chunks, input.K(), input.weights, ans), input.K(), picks);
    var kept := Keep(reranked, input.MinScore());
    forall c | c in Fresh(chunks, input, ans, picks) ensures SeesAs(sees, input, c.chunkId) {
      KeepIff(kept, 0.0, ans.visible, c);
    }
  }

  lemma {:induction false} StoringKeepsRowsSeen(w: World, cfg: Config, input: Input, served: seq<Merged>, sees: Sees)
    requires RowsSeen(w.recalls, sees) && Plain(input) && (input.Filtered() ==> AllSeen(served, sees, input))
    ensures RowsSeen(Stored(w, cfg, input, served).recalls, sees)
  {
    var recalls := Stored(w, cfg, input, served).recalls;
    forall q, i: Input | q in recalls && Plain(i) && i.Filtered() && ScopeKeyFor(i) == q.1
      ensures AllSeen(recalls[q].topK, sees, i) {
      if q == (input.query, ScopeKeyFor(input)) { ScopeKeyDeterminesViewer(i, input); }
    }
  }

  lemma {:induction false} RoutesAnswer(w: World, cfg: Config, input: Input, ans: Answers, ws: WorkingSet, served: seq<Merged>, sees: Sees)
    requires RowsSeen(w.recalls, sees) && Plain(input) && (input.Filtered() ==> AllSeen(served, sees, input))
    ensures var r := FromRoutes(w, cfg, input, ans, ws, served);
            && RowsSeen(r.0.recalls, sees)
            && (input.Filtered() && r.1.Results? ==> AllSeen(r.1.results, sees, input))
  {
    StoringKeepsRowsSeen(Filled(w, cfg, input, ws, served), cfg, input, served, sees);
  }

  lemma {:induction false} BelowT0KeepsRowsSeen(w: World, cfg: Config, input: Input, ans: Answers, picks: seq<nat>,
                                                ws: WorkingSet, sees: Sees)
    requires RowsSeen(w.recalls, sees) && Plain(input)
    requires forall id :: id in ans.visible ==> SeesAs(sees, input, id)
    ensures var r := BelowT0(w, cfg, input, ans, picks, ws);
            && RowsSeen(r.0.recalls, sees)
            && (input.Filtered() && r.1.Results? ==> AllSeen(r.1.results, sees, input))
  {
    var q := (input.query, ScopeKeyFor(input));
    if input.Filtered() {
      FreshIsSeen(w.chunks, input, ans, picks, sees);
      if q in w.recalls { RowHitIsSeen(w.recalls[q].topK, input, sees); }
    }
    RoutesAnswer(w, cfg, input, ans, ws, Fresh(w.chunks, input, ans, picks), sees);
  }

  lemma {:induction false} RecallKeepsRowsSeen(w: World, cfg: Config, input: Input, ans: Answers, picks: seq<nat>, sees: Sees)
    requires AllIn(ans.profiles, w.chunks) && RowsSeen(w.recalls, sees) && Plain(input)
    requires forall id :: id in ans.visible ==> SeesAs(sees, input, id)
    ensures var r := Recalled(w, cfg, input, ans, picks);
            && RowsSeen(r.0.recalls, sees)
            && (input.Filtered() && r.1.Results? && r.1.tier != T0 ==> AllSeen(r.1.results, sees, input))
  {
    var ws := Searched(w, cfg, input, ans).0;
    BelowT0KeepsRowsSeen(w, cfg, input, ans, picks, ws, sees);
  }

  lemma {:induction false} RowHitIsSeen(topK: seq<Merged>, input: Input, sees: Sees)
    requires AllSeen(topK, sees, input)
    ensures AllSeen(Take(Keep(topK, input.MinScore()), input.K()), sees, input)
  {
    forall c | c in Take(Keep(topK, input.MinScore()), input.K()) ensures SeesAs(sees, input, c.chunkId) {
      KeepIff(topK, input.MinScore(), {}, c);
    }
  }

  lemma {:induction false} StepKeepsRowsSeen(w: World, cfg: Config, e: Event, sees: Sees)
    requires RowsSeen(w.recalls, sees) && Enabled(w, cfg, e)
    requires e.Recall? ==> Plain(e.input) && forall id :: id in e.ans.visible ==> SeesAs(sees, e.input, id)
    ensures RowsSeen(Step(w, cfg, e).recalls, sees)
  {
    if e.Recall? {
      RecallKeepsRowsSeen(w, cfg, e.input, e.ans, e.picks, sees);
    }
  }

  lemma {:induction false} RunKeepsRowsSeen(ws: seq<World>, cfg: Config, es: seq<Event>, sees: Sees, n: nat)
    requires Run(ws, cfg, es) && Private(es, sees) && n <= |es|
    ensures RowsSeen(ws[n].recalls, sees)
  {
    if n > 0 {
      RunKeepsRowsSeen(ws, cfg, es, sees, n - 1);
      assert StepAt(ws, cfg, es, n - 1);
      StepKeepsRowsSeen(ws[n - 1], cfg, es[n - 1], sees);
    }
  }

  /** Whatever cache.recall or the routes show a viewer, the privacy lookup let that very viewer see,
      in that chat, when it was found. */
  lemma {:induction false} ResultsBelowT0AreVisible(ws: seq<World>, cfg: Config, es: seq<Event>, sees: Sees, n: nat)
    requires Run(ws, cfg, es) && Private(es, sees) && n < |es| && es[n].Recall? && es[n].input.Filtered()
    ensures StepAt(ws, cfg, es, n)
    ensures var out := Recalled(ws[n], cfg, es[n].input, es[n].ans, es[n].picks).1;
            out.Results? && out.tier != T0 ==> AllSeen(out.results, sees, es[n].input)
  {
    assert StepAt(ws, cfg, es, n);
    RunKeepsRowsSeen(ws, cfg, es, sees, n);
    RecallKeepsRowsSeen(ws[n], cfg, es[n].input, es[n].ans, es[n].picks, sees);
  }

  /* --------------------------------- viewers, T0 --------------------------------- */

  ghost predicate KeysSeen(es: seq<Slot>, sees: Sees, i: Input) {
    forall e :: e in es ==> SeesAs(sees, i, e.key)
  }

  lemma {:induction false} BumpKeys(es: seq<Slot>, id: string, h: Lru.Held<Merged>, sees: Sees, i: Input)
    requires KeysSeen(es, sees, i) && SeesAs(sees, i, id)
    ensures KeysSeen(Lru.Bump(es, id, h), sees, i)
  {
    Lru.BumpMembers(es, id, h, 0);
  }

  lemma {:induction false} AddAllKeys(es: seq<Slot>, cs: seq<Merged>, cap: nat, sees: Sees, i: Input)
    requires KeysSeen(es, sees, i) && AllSeen(cs, sees, i)
    ensures KeysSeen(AddAll(es, cs, cap), sees, i)
  {
    if cs != [] {
      var n := |cs| - 1;
      AddAllKeys(es, cs[..n], cap, sees, i);
      var before, c := AddAll(es, cs[..n], cap), cs[n];
      assert SeesAs(sees, i, c.chunkId);
      var found: Option<Lru.Held<Merged>> := Lru.Find(before, c.chunkId);
      if found.Some? { BumpKeys(before, c.chunkId, Lru.Held(c, found.value.hits), sees, i); }
    }
  }

  lemma {:induction false} TouchAllKeys(es: seq<Slot>, cs: seq<Merged>, sees: Sees, i: Input)
    requires KeysSeen(es, sees, i)
    ensures KeysSeen(TouchAll(es, cs), sees, i)
  {
    if cs != [] {
      var n := |cs| - 1;
      TouchAllKeys(es, cs[..n], sees, i);
      var before, id := TouchAll(es, cs[..n]), cs[n].chunkId;
      var found: Option<Lru.Held<Merged>> := Lru.Find(before, id);
      Lru.FindInKeySet(before, id);
      if found.Some? {
        assert Lru.Entry(id, found.value) in before;
        BumpKeys(before, id, Lru.Held(found.value.candidate, found.value.hits + 1), sees, i);
      }
    }
  }

  lemma {:induction false} BoostInKeys(es: seq<Slot>, f: Merged, sees: Sees, i: Input)
    requires KeysSeen(es, sees, i)
    ensures KeysSeen(BoostIn(es, f), sees, i)
  {
    if es != [] {
      assert es[0] in es && forall e :: e in es[1..] ==> e in es;
      BoostInKeys(es[1..], f, sees, i);
    }
  }

  lemma {:induction false} BoostAllKeys(es: seq<Slot>, found: seq<Merged>, sees: Sees, i: Input)
    requires KeysSeen(es, sees, i)
    ensures KeysSeen(BoostAll(es, found), sees, i)
  {
    if found != [] {
      BoostAllKeys(es, found[..|found| - 1], sees, i);
      BoostInKeys(BoostAll(es, found[..|found| - 1]), found[|found| - 1], sees, i);
    }
  }

  /** What a search finds is held under its own id. */
  lemma {:induction false} FoundIsSeen(tx: Texts, query: string, k: nat, es: seq<Slot>, sees: Sees, i: Input)
    requires KeysSeen(es, sees, i) && forall e :: e in es ==> e.key == e.value.candidate.chunkId
    ensures AllSeen(Found(tx, query, k, es), sees, i)
  {
    var matching := Matching(tx, query, es);
    SortPermutes(matching);
    forall c | c in Found(tx, query, k, es) ensures SeesAs(sees, i, c.chunkId) {
      assert c in SortByScore(matching) && c in multiset(SortByScore(matching));
      MatchingIff(tx, query, es, c);
      var e :| e in es && c.chunkId == e.value.candidate.chunkId;
    }
  }

  /** Who may see what, which viewers recall, and which chunks a priming may answer with. */
  datatype Policy = Policy(sees: Sees, callers: Option<Viewer> -> bool, primed: string -> bool)

  /** A recall that shares i's working set is by one of the callers; if it is filtered, the privacy
      lookup lets it see no more than its viewer may. */
  ghost predicate Shares(e: Event, p: Policy, i: Input) {
    e.Recall? && KeyOf(e.input) == KeyOf(i) ==>
      && p.callers(e.input.viewer)
      && (e.input.Filtered() ==> forall id :: id in e.ans.visible ==> SeesAs(p.sees, e.input, id))
      && (forall id :: id in e.ans.profiles ==> p.primed(id))
  }

  ghost predicate SharedBy(es: seq<Event>, p: Policy, i: Input) {
    forall n :: 0 <= n < |es| ==> Shares(es[n], p, i)
  }

  /** What a caller may be shown by the routes: anything, if it is not filtered. */
  predicate Reaches(sees: Sees, j: Input, id: string) {
    j.Filtered() ==> SeesAs(sees, j, id)
  }

  /** i's viewer may see whatever a caller with its key may be shown, and every primed profile. */
  ghost predicate SeesAllShared(p: Policy, i: Input) {
    && (forall j: Input, id :: p.callers(j.viewer) && KeyOf(j) == KeyOf(i) && Reaches(p.sees, j, id) ==> SeesAs(p.sees, i, id))
    && (forall id :: p.primed(id) ==> SeesAs(p.sees, i, id))
  }

  ghost predicate SetSeen(w: World, sees: Sees, i: Input) {
    KeyOf(i) in w.t0 ==> KeysSeen(w.t0[KeyOf(i)].entries, sees, i)
  }

  lemma {:induction false} SearchedIsSeen(w: World, cfg: Config, input: Input, ans: Answers, sees: Sees, i: Input)
    requires SetsCoherent(w, None) && SetSeen(w, sees, i) && KeyOf(input) == KeyOf(i)
    requires ProfilesFrom(w.chunks, input.Agent(), ans.profiles, cfg.t0SizeLimit)
    requires forall id :: id in ans.profiles ==> SeesAs(sees, i, id)
    ensures var r := Searched(w, cfg, input, ans);
            KeysSeen(r.0.entries, sees, i) && AllSeen(r.1, sees, i) && AllSeen(HeldAll(r.0.entries, r.1), sees, i)
  {
    var ws := WorkingSetFor(w, KeyOf(input));
    var profiles := Profiles(w.chunks, ans.profiles);
    forall c | c in profiles ensures SeesAs(sees, i, c.chunkId) {
      var n :| 0 <= n < |profiles| && profiles[n] == c;
      assert ans.profiles[n] in ans.profiles;
    }
    AddAllKeys(ws.entries, profiles, cfg.t0SizeLimit, sees, i);
    assert AllHeld(w.chunks, SetOwner(None, KeyOf(input)), ws.entries);
    AddAllHeld(w.chunks, None, ws.entries, profiles, cfg.t0SizeLimit);
    var primed := Primed(w.chunks, ws, ans.profiles, cfg.t0SizeLimit).entries;
    assert AllHeld(w.chunks, None, primed);
    forall e | e in primed ensures e.key == e.value.candidate.chunkId { assert SlotGood(w.chunks, None, e); }
    var found := Found(cfg.texts, input.query, input.K(), primed);
    FoundIsSeen(cfg.texts, input.query, input.K(), primed, sees, i);
    BoostAllKeys(primed, found, sees, i);
    BoostAllHeld(w.chunks, None, primed, found);
    HeldAllIsSeen(w.chunks, BoostAll(primed, found), found, sees, i);
  }

  lemma {:induction false} HeldAllIsSeen(chunks: map<string, Chunk>, es: seq<Slot>, found: seq<Merged>, sees: Sees, i: Input)
    requires AllHeld(chunks, None, es) && AllSeen(found, sees, i)
    ensures AllSeen(HeldAll(es, found), sees, i)
  {
    forall c | c in HeldAll(es, found) ensures SeesAs(sees, i, c.chunkId) {
      var n :| 0 <= n < |found| && c == Held(es, found[n]);
      FindIsGood(chunks, None, es, found[n].chunkId);
      assert found[n] in found;
    }
  }

  lemma {:induction false} RoutesFill(w: World, cfg: Config, input: Input, ans: Answers, ws: WorkingSet, served: seq<Merged>, sees: Sees, i: Input)
    requires KeyOf(input) == KeyOf(i) && KeysSeen(ws.entries, sees, i) && AllSeen(served, sees, i)
    ensures var r := FromRoutes(w, cfg, input, ans, ws, served);
            SetSeen(r.0, sees, i) && (r.1.Results? ==> r.1.tier != T0)
  {
    AddAllKeys(ws.entries, served, cfg.t0SizeLimit, sees, i);
  }

  lemma {:induction false} BelowT0KeepsSetSeen(w: World, cfg: Config, input: Input, ans: Answers, picks: seq<nat>,
                                               ws: WorkingSet, sees: Sees, i: Input)
    requires KeyOf(input) == KeyOf(i) && KeysSeen(ws.entries, sees, i)
    requires AllSeen(Fresh(w.chunks, input, ans, picks), sees, i)
    ensures var r := BelowT0(w, cfg, input, ans, picks, ws);
            SetSeen(r.0, sees, i) && (r.1.Results? ==> r.1.tier != T0)
  {
    RoutesFill(w, cfg, input, ans, ws, Fresh(w.chunks, input, ans, picks), sees, i);
  }

  lemma {:induction false} SharedFreshIsSeen(w: World, e: Event, p: Policy, i: Input)
    requires e.Recall? && KeyOf(e.input) == KeyOf(i) && Shares(e, p, i) && SeesAllShared(p, i)
    ensures AllSeen(Fresh(w.chunks, e.input, e.ans, e.picks), p.sees, i)
  {
    if e.input.Filtered() { FreshIsSeen(w.chunks, e.input, e.ans, e.picks, p.sees); }
    forall c | c in Fresh(w.chunks, e.input, e.ans, e.picks) ensures SeesAs(p.sees, i, c.chunkId) {
      assert Reaches(p.sees, e.input, c.chunkId);
    }
  }

  /** One recall that shares the set keeps it to what i's viewer may see. */
  lemma {:induction false} SharingRecallKeeps(w: World, cfg: Config, e: Event, p: Policy, i: Input)
    requires e.Recall? && Enabled(w, cfg, e) && KeyOf(e.input) == KeyOf(i) && Shares(e, p, i)
    requires SetsCoherent(w, None) && SetSeen(w, p.sees, i) && SeesAllShared(p, i)
    ensures var r := Recalled(w, cfg, e.input, e.ans, e.picks);
            SetSeen(r.0, p.sees, i) && (r.1.Results? && r.1.tier == T0 ==> AllSeen(r.1.results, p.sees, i))
  {
    var (ws, found) := Searched(w, cfg, e.input, e.ans);
    SearchedIsSeen(w, cfg, e.input, e.ans, p.sees, i);
    var hits := HeldAll(ws.entries, found);
    TouchAllKeys(ws.entries, hits, p.sees, i);
    SharedFreshIsSeen(w, e, p, i);
    BelowT0KeepsSetSeen(w, cfg, e.input, e.ans, e.picks, ws, p.sees, i);
  }

  lemma {:induction false} OtherRecallKeeps(w: World, cfg: Config, input: Input, ans: Answers, picks: seq<nat>, key: string)
    requires AllIn(ans.profiles, w.chunks) && KeyOf(input) != key
    ensures var t0 := Recalled(w, cfg, input, ans, picks).0.t0;
            (key in t0 <==> key in w.t0) && (key in t0 ==> t0[key] == w.t0[key])
  {
  }

  lemma {:induction false} EditKeepsSetSeen(w: World, cfg: Config, e: Event, sees: Sees, i: Input)
    requires Enabled(w, cfg, e) && SetSeen(w, sees, i) && !e.Recall?
    ensures SetSeen(Step(w, cfg, e), sees, i)
  {
    var key := KeyOf(i);
    if key in w.t0 && (e.Update? || e.Forget?) { Lru.WithoutKeys(w.t0[key].entries, e.id); }
  }

  lemma {:induction false} SharedStepKeeps(w: World, cfg: Config, e: Event, p: Policy, i: Input)
    requires Enabled(w, cfg, e) && Shares(e, p, i)
    requires SetsCoherent(w, None) && SetSeen(w, p.sees, i) && SeesAllShared(p, i)
    ensures SetSeen(Step(w, cfg, e), p.sees, i)
  {
    if !e.Recall? {
      EditKeepsSetSeen(w, cfg, e, p.sees, i);
    } else if KeyOf(e.input) == KeyOf(i) {
      SharingRecallKeeps(w, cfg, e, p, i);
    } else {
      OtherRecallKeeps(w, cfg, e.input, e.ans, e.picks, KeyOf(i));
    }
  }

  lemma {:induction false} RunKeepsSetSeen(ws: seq<World>, cfg: Config, es: seq<Event>, p: Policy, i: Input, n: nat)
    requires Run(ws, cfg, es) && SharedBy(es, p, i) && SeesAllShared(p, i) && n <= |es|
    ensures SetSeen(ws[n], p.sees, i)
  {
    if n > 0 {
      RunKeepsSetSeen(ws, cfg, es, p, i, n - 1);
      CachesAgreeWithTable(ws, cfg, es, n - 1);
      assert StepAt(ws, cfg, es, n - 1);
      SharedStepKeeps(ws[n - 1], cfg, es[n - 1], p, i);
    }
  }

  /** What T0 shows i's viewer under i's working-set key, that viewer may see. */
  ghost predicate SeenAt(w: World, cfg: Config, e: Event, sees: Sees, i: Input) {
    e.Recall? && Enabled(w, cfg, e) && KeyOf(e.input) == KeyOf(i) && SameViewer(e.input, i) ==>
      var out := Recalled(w, cfg, e.input, e.ans, e.picks).1;
      out.Results? && out.tier == T0 ==> AllSeen(out.results, sees, i)
  }

  ghost predicate T0Private(cfg: Config, p: Policy, i: Input) {
    forall ws, es :: Run(ws, cfg, es) && SharedBy(es, p, i) ==>
      forall n :: 0 <= n < |es| ==> SeenAt(ws[n], cfg, es[n], p.sees, i)
  }

  /** A last recall that shows what i's viewer may not see refutes privacy. */
  lemma {:induction false} NotT0Private(cfg: Config, p: Policy, i: Input, ws: seq<World>, es: seq<Event>, e: Event)
    requires Run(ws, cfg, es) && SharedBy(es, p, i)
    requires Enabled(ws[|es|], cfg, e) && Shares(e, p, i) && !SeenAt(ws[|es|], cfg, e, p.sees, i)
    ensures !T0Private(cfg, p, i)
  {
    var w' := Step(ws[|es|], cfg, e);
    RunSnoc(ws, cfg, es, e, w');
    var ws', es', n := ws + [w'], es + [e], |es|;
    assert SharedBy(es', p, i);
    assert ws'[n] == ws[n] && es'[n] == e;
    OneRecallExposes(cfg, p, i, ws', es', n);
  }

  lemma {:induction false} OneRecallExposes(cfg: Config, p: Policy, i: Input, ws: seq<World>, es: seq<Event>, n: nat)
    requires Run(ws, cfg, es) && SharedBy(es, p, i) && n < |es| && !SeenAt(ws[n], cfg, es[n], p.sees, i)
    ensures !T0Private(cfg, p, i)
  {
  }

  /** A chunk found for j, filtered or not, is shown to i's viewer. */
  lemma {:induction false} SharedSetShowsChunk(cfg: Config, p: Policy, i: Input, j: Input, id: string)
    requires p.callers(i.viewer) && p.callers(j.viewer) && KeyOf(i) == KeyOf(j) && i.Filtered() && cfg.t0SizeLimit > 0
    requires Reaches(p.sees, j, id) && !SeesAs(p.sees, i, id)
    ensures !T0Private(cfg, p, i)
  {
    var ws, es := FreshRun(cfg, i.Agent(), j.Agent(), j, id);
    FreshIsShared(p, i, j, id);
    ShownToOtherViewer(cfg, p, i, ws, es, id);
  }

  lemma {:induction false} FreshIsShared(p: Policy, i: Input, j: Input, id: string)
    requires p.callers(j.viewer) && Reaches(p.sees, j, id)
    ensures Shares(Recall(AskFor(j, FACT), OneRow(id, FACT), []), p, i)
  {
  }

  lemma {:induction false} ShownToOtherViewer(cfg: Config, p: Policy, i: Input, ws: seq<World>, es: seq<Event>, id: string)
    requires Run(ws, cfg, es) && SharedBy(es, p, i) && p.callers(i.viewer) && i.Filtered() && !SeesAs(p.sees, i, id)
    requires var w := ws[|es|]; KeyOf(i) in w.t0 && HoldsOnly(w.t0[KeyOf(i)], id, FACT)
    ensures !T0Private(cfg, p, i)
  {
    var w, e := ws[|es|], Recall(AskFor(i, FACT), Nothing([]), []);
    TheOneIsShown(w, cfg, e.input, e.ans, [], id);
    NotT0Private(cfg, p, i, ws, es, e);
  }

  /** Profiles are primed without the privacy lookup: a viewer is shown one it may not see. */
  lemma {:induction false} ProfilesAreNotFiltered(cfg: Config, sees: Sees, i: Input, id: string) returns (ws: seq<World>, es: seq<Event>)
    requires i.Filtered() && !SeesAs(sees, i, id) && cfg.t0SizeLimit > 0
    ensures Run(ws, cfg, es) && |es| == 2 && es[0].Ingest? && es[1] == Recall(AskFor(i, FACT), Nothing([id]), [])
    ensures StepAt(ws, cfg, es, 1)
    ensures var out := Recalled(ws[1], cfg, es[1].input, es[1].ans, es[1].picks).1;
            out.Results? && out.tier == T0 && |out.results| == 1 && out.results[0].chunkId == id
    ensures !SeenAt(ws[1], cfg, es[1], sees, i)
  {
    ws, es := OneChunkRun(cfg, i.Agent(), id, FACT);
    var w, out := PrimingShows(cfg, i, FACT, id);
    var e := Recall(AskFor(i, FACT), Nothing([id]), []);
    RunSnoc(ws, cfg, es, e, w);
    ws, es := ws + [w], es + [e];
    assert StepAt(ws, cfg, es, 1) && out.results[0] in out.results;
  }

  lemma {:induction false} ProfileIsShared(p: Policy, i: Input, id: string)
    requires p.callers(i.viewer) && p.primed(id)
    ensures Shares(Recall(AskFor(i, FACT), Nothing([id]), []), p, i)
  {
  }

  lemma {:induction false} PrimingExposes(cfg: Config, p: Policy, i: Input, id: string)
    requires p.callers(i.viewer) && i.Filtered() && cfg.t0SizeLimit > 0
    requires p.primed(id) && !SeesAs(p.sees, i, id)
    ensures !T0Private(cfg, p, i)
  {
    var ws, es := ProfilesAreNotFiltered(cfg, p.sees, i, id);
    ProfileIsShared(p, i, id);
    OneRecallExposes(cfg, p, i, ws, es, 1);
  }

  /** T0 shows a filtered viewer only what it may see, over all runs of any callers with any edits,
      exactly when it may see all that callers with its working-set key may be shown by the routes,
      filtered or not, and every profile a priming may answer with. */
  lemma {:induction false} T0PrivateIff(cfg: Config, p: Policy, i: Input)
    requires p.callers(i.viewer) && i.Filtered() && cfg.t0SizeLimit > 0
    ensures T0Private(cfg, p, i) <==> SeesAllShared(p, i)
  {
    if SeesAllShared(p, i) {
      forall ws: seq<World>, es: seq<Event> | Run(ws, cfg, es) && SharedBy(es, p, i)
        ensures forall n :: 0 <= n < |es| ==> SeenAt(ws[n], cfg, es[n], p.sees, i) {
        forall n | 0 <= n < |es| ensures SeenAt(ws[n], cfg, es[n], p.sees, i) {
          RunKeepsSetSeen(ws, cfg, es, p, i, n);
          CachesAgreeWithTable(ws, cfg, es, n);
          var e := es[n];
          if e.Recall? && Enabled(ws[n], cfg, e) && KeyOf(e.input) == KeyOf(i) {
            SharingRecallKeeps(ws[n], cfg, e, p, i);
          }
        }
      }
    } else if id :| p.primed(id) && !SeesAs(p.sees, i, id) {
      PrimingExposes(cfg, p, i, id);
    } else {
      var j: Input, id :| p.callers(j.viewer) && KeyOf(j) == KeyOf(i) && Reaches(p.sees, j, id) && !SeesAs(p.sees, i, id);
      SharedSetShowsChunk(cfg, p, i, j, id);
    }
  }

  /** Two callers with one working set: the second, if not filtered, must hold nothing back. */
  lemma {:induction false} TwoCallersPrivateIff(cfg: Config, sees: Sees, primed: string -> bool, i: Input, j: Input)
    requires KeyOf(i) == KeyOf(j) && i.Filtered() && cfg.t0SizeLimit > 0
    ensures T0Private(cfg, Policy(sees, v => v == i.viewer || v == j.viewer, primed), i) <==>
            && (forall id :: Reaches(sees, j, id) ==> SeesAs(sees, i, id))
            && (forall id :: primed(id) ==> SeesAs(sees, i, id))
  {
    var p := Policy(sees, v => v == i.viewer || v == j.viewer, primed);
    T0PrivateIff(cfg, p, i);
    forall j': Input, id | p.callers(j'.viewer) && Reaches(sees, j', id) && !SeesAs(sees, i, id)
      ensures Reaches(sees, j, id) {}
  }

  /** A viewer with a chat and no user shares its working set with a caller without any viewer, who
      is not filtered: T0 is private for it only if it may see every chunk. */
  lemma {:induction false} ChatOnlyViewerPrivateIff(cfg: Config, sees: Sees, primed: string -> bool, i: Input, chat: string)
    requires i.viewer == Some(Viewer(None, Some(chat))) && chat != "" && cfg.t0SizeLimit > 0
    ensures T0Private(cfg, Policy(sees, v => v == i.viewer || v == None, primed), i) <==> forall id :: SeesAs(sees, i, id)
  {
    var j := i.(viewer := None);
    assert KeyOf(j) == KeyOf(i) && !j.Filtered();
    TwoCallersPrivateIff(cfg, sees, primed, i, j);
  }
}
