/** What a session's working set holds over its life (src/recall/working-set.ts): the least recently
    used cache of what it was primed with, shown and given. */
module WorkingSets {
  import opened SeqTools
  import opened Chunks
  import opened Ranking
  import opened RecallTiers
  import opened RecallRuns
  import Lru

  /** Uses of these ids, in order. */
  function UsesOf(cs: seq<Merged>): seq<Lru.Use> {
    seq(|cs|, i requires 0 <= i < |cs| => Lru.Used(cs[i].chunkId))
  }

  lemma {:induction false} UsesSnoc(log: seq<Lru.Use>, cs: seq<Merged>, c: Merged)
    ensures log + UsesOf(cs + [c]) == log + UsesOf(cs) + [Lru.Used(c.chunkId)]
  {
  }

  lemma {:induction false} AddTracks(es: seq<Slot>, log: seq<Lru.Use>, id: string, c: Merged, cap: nat)
    requires Lru.Tracks(es, log, cap)
    ensures Lru.Tracks(Lru.WsAdd(es, id, c, cap), log + [Lru.Used(id)], cap)
  {
    var found: Option<Lru.Held<Merged>> := Lru.Find(es, id);
    Lru.FindInKeySet(es, id);
    if found.Some? {
      Lru.HitTracks(es, log, id, Lru.Held(c, found.value.hits), cap);
    } else {
      Lru.WithoutAbsent(es, id);
      Lru.UseTracks(es, log, id, Lru.Held(c, 0), cap);
    }
  }

  /** Candidates added one after another are uses. */
  lemma {:induction false} AddAllTracks(es: seq<Slot>, log: seq<Lru.Use>, cs: seq<Merged>, cap: nat)
    requires Lru.Tracks(es, log, cap)
    ensures Lru.Tracks(AddAll(es, cs, cap), log + UsesOf(cs), cap)
  {
    if cs == [] {
      assert log + UsesOf(cs) == log;
    } else {
      var init, c := cs[..|cs| - 1], cs[|cs| - 1];
      assert cs == init + [c];
      AddAllTracks(es, log, init, cap);
      AddTracks(AddAll(es, init, cap), log + UsesOf(init), c.chunkId, c, cap);
      UsesSnoc(log, init, c);
    }
  }

  /** All these ids are held. */
  ghost predicate AllPresent(es: seq<Slot>, cs: seq<Merged>) {
    forall i :: 0 <= i < |cs| ==> cs[i].chunkId in Lru.KeySet(es)
  }

  lemma {:induction false} TouchAllKeys(es: seq<Slot>, cs: seq<Merged>)
    ensures Lru.KeySet(TouchAll(es, cs)) == Lru.KeySet(es)
  {
    if cs != [] {
      var n := |cs| - 1;
      var before, id := TouchAll(es, cs[..n]), cs[n].chunkId;
      TouchAllKeys(es, cs[..n]);
      Lru.FindInKeySet(before, id);
      var found: Option<Lru.Held<Merged>> := Lru.Find(before, id);
      if found.Some? {
        Lru.WithoutKeys(before, id);
        Lru.KeySetSnoc(Lru.Without(before, id), Lru.Entry(id, found.value.(hits := found.value.hits + 1)));
      }
    }
  }

  lemma {:induction false} TouchTracks(es: seq<Slot>, log: seq<Lru.Use>, id: string, cap: nat)
    requires Lru.Tracks(es, log, cap) && id in Lru.KeySet(es)
    ensures Lru.Tracks(Lru.WsTouch(es, id), log + [Lru.Used(id)], cap)
  {
    Lru.FindInKeySet(es, id);
    var found: Option<Lru.Held<Merged>> := Lru.Find(es, id);
    var h := Lru.Held(found.value.candidate, found.value.hits + 1);
    assert Lru.WsTouch(es, id) == Lru.Bump(es, id, h);
    Lru.HitTracks(es, log, id, h, cap);
  }

  /** So are hits. */
  lemma {:induction false} TouchAllTracks(es: seq<Slot>, log: seq<Lru.Use>, cs: seq<Merged>, cap: nat)
    requires Lru.Tracks(es, log, cap) && AllPresent(es, cs)
    ensures Lru.Tracks(TouchAll(es, cs), log + UsesOf(cs), cap)
  {
    if cs == [] {
      assert log + UsesOf(cs) == log;
    } else {
      var init, c := cs[..|cs| - 1], cs[|cs| - 1];
      assert cs == init + [c] && c.chunkId in Lru.KeySet(es);
      TouchAllTracks(es, log, init, cap);
      TouchAllKeys(es, init);
      TouchTracks(TouchAll(es, init), log + UsesOf(init), c.chunkId, cap);
      UsesSnoc(log, init, c);
    }
  }

  /** Only the values differ. */
  ghost predicate SameKeys(es: seq<Slot>, fs: seq<Slot>) {
    |es| == |fs| && forall i :: 0 <= i < |es| ==> fs[i].key == es[i].key
  }

  lemma {:induction false} SameKeysTrack(es: seq<Slot>, fs: seq<Slot>, log: seq<Lru.Use>, cap: nat)
    requires SameKeys(es, fs)
    ensures Lru.KeySet(fs) == Lru.KeySet(es) && (Lru.UniqueKeys(es) ==> Lru.UniqueKeys(fs))
    ensures Lru.Ordered(es, log, cap) ==> Lru.Ordered(fs, log, cap)
  {
    if es != [] {
      SameKeysTrack(es[1..], fs[1..], log, cap);
      Lru.KeySetCons(es);
      Lru.KeySetCons(fs);
    }
  }

  lemma {:induction false} BoostInKeys(es: seq<Slot>, f: Merged)
    ensures SameKeys(es, BoostIn(es, f))
  {
    if es != [] { BoostInKeys(es[1..], f); }
  }

  lemma {:induction false} BoostAllKeys(es: seq<Slot>, found: seq<Merged>)
    ensures SameKeys(es, BoostAll(es, found))
  {
    if found != [] {
      BoostAllKeys(es, found[..|found| - 1]);
      BoostInKeys(BoostAll(es, found[..|found| - 1]), found[|found| - 1]);
    }
  }

  /** Raising scores moves nothing. */
  lemma {:induction false} BoostAllTracks(es: seq<Slot>, log: seq<Lru.Use>, found: seq<Merged>, cap: nat)
    requires Lru.Tracks(es, log, cap)
    ensures Lru.Tracks(BoostAll(es, found), log, cap)
  {
    BoostAllKeys(es, found);
    SameKeysTrack(es, BoostAll(es, found), log, cap);
  }

  /* ---------------------------------- one recall -------------------------------- */

  /** What priming uses: nothing in a set primed before. */
  function Priming(w: World, input: Input, ans: Answers): seq<Merged>
    requires AllIn(ans.profiles, w.chunks)
  {
    if KeyOf(input) in w.t0 && w.t0[KeyOf(input)].primed then [] else Profiles(w.chunks, ans.profiles)
  }

  /** Profiles enter with their importance above 1, as found by an entity. */
  lemma {:induction false} ProfilesEnterHigh(chunks: map<string, Chunk>, ids: seq<string>, i: nat)
    requires AllIn(ids, chunks) && i < |ids|
    ensures |Profiles(chunks, ids)| == |ids|
    ensures Profiles(chunks, ids)[i] == Merged(ids[i], chunks[ids[i]].text, [EntityRef], chunks[ids[i]].importance + 1.0)
  {
  }

  lemma {:induction false} SearchedTracks(w: World, cfg: Config, input: Input, ans: Answers, log: seq<Lru.Use>)
    requires AllIn(ans.profiles, w.chunks) && Lru.Tracks(WorkingSetFor(w, KeyOf(input)).entries, log, cfg.t0SizeLimit)
    ensures var (ws, found) := Searched(w, cfg, input, ans);
            && ws.primed && Lru.Tracks(ws.entries, log + UsesOf(Priming(w, input, ans)), cfg.t0SizeLimit)
  {
    var before := WorkingSetFor(w, KeyOf(input));
    var primed := Primed(w.chunks, before, ans.profiles, cfg.t0SizeLimit).entries;
    var profiles := Priming(w, input, ans);
    if before.primed { assert log + UsesOf(profiles) == log; } else { AddAllTracks(before.entries, log, profiles, cfg.t0SizeLimit); }
    BoostAllTracks(primed, log + UsesOf(profiles), Found(cfg.texts, input.query, input.K(), primed), cfg.t0SizeLimit);
  }

  lemma {:induction false} FoundIsHeld(tx: Texts, query: string, k: nat, es: seq<Slot>, chunks: map<string, Chunk>, i: nat)
    requires AllHeld(chunks, None, es) && i < |Found(tx, query, k, es)|
    ensures var f := Found(tx, query, k, es)[i];
            && f.chunkId in Lru.KeySet(es) && f in Matching(tx, query, es)
  {
    var matching := Matching(tx, query, es);
    var f := Found(tx, query, k, es)[i];
    SortPermutes(matching);
    assert f in SortByScore(matching) && f in multiset(SortByScore(matching));
    MatchingIff(tx, query, es, f);
    var e :| e in es && f.chunkId == e.value.candidate.chunkId;
    assert SlotGood(chunks, None, e);
  }

  /** What a search finds is held, under its id, by the set it raised the scores of. */
  lemma {:induction false} HitsAreHeld(w: World, cfg: Config, input: Input, ans: Answers)
    requires SetsCoherent(w, None) && ProfilesFrom(w.chunks, input.Agent(), ans.profiles, cfg.t0SizeLimit)
    ensures var (ws, found) := Searched(w, cfg, input, ans); AllPresent(ws.entries, HeldAll(ws.entries, found))
  {
    var primed := Primed(w.chunks, WorkingSetFor(w, KeyOf(input)), ans.profiles, cfg.t0SizeLimit).entries;
    var (ws, found) := Searched(w, cfg, input, ans);
    PrimedIsHeld(w, cfg, input, ans);
    SearchedIsGood(w, cfg, None, input, ans);
    BoostAllKeys(primed, found);
    SameKeysTrack(primed, ws.entries, [], 0);
    forall i | 0 <= i < |found| ensures HeldAll(ws.entries, found)[i].chunkId in Lru.KeySet(ws.entries) {
      FoundIsHeld(cfg.texts, input.query, input.K(), primed, w.chunks, i);
      Lru.FindInKeySet(ws.entries, found[i].chunkId);
      FindIsGood(w.chunks, None, ws.entries, found[i].chunkId);
    }
  }

  lemma {:induction false} PrimedIsHeld(w: World, cfg: Config, input: Input, ans: Answers)
    requires SetsCoherent(w, None) && ProfilesFrom(w.chunks, input.Agent(), ans.profiles, cfg.t0SizeLimit)
    ensures AllHeld(w.chunks, None, Primed(w.chunks, WorkingSetFor(w, KeyOf(input)), ans.profiles, cfg.t0SizeLimit).entries)
  {
    var ws := WorkingSetFor(w, KeyOf(input));
    assert AllHeld(w.chunks, SetOwner(None, KeyOf(input)), ws.entries);
    AddAllHeld(w.chunks, None, ws.entries, Profiles(w.chunks, ans.profiles), cfg.t0SizeLimit);
  }

  /** What a recall uses of its working set besides the profiles: what T0 shows, or what the routes
      find, also if they could not be stored; a row of cache.recall and a failure use nothing. */
  ghost function Given(w: World, cfg: Config, input: Input, ans: Answers, picks: seq<nat>): seq<Merged>
    requires AllIn(ans.profiles, w.chunks)
  {
    var out := Recalled(w, cfg, input, ans, picks).1;
    if out.Results? then (if out.tier == T1 then [] else out.results)
    else if StoresOnly(w, input, ans) then Fresh(w.chunks, input, ans, picks) else []
  }

  /** With no row in force, the only call that fails is the last one. */
  ghost predicate StoresOnly(w: World, input: Input, ans: Answers) {
    var q := (input.query, ScopeKeyFor(input));
    ans.fault == StoreFails && !(q in w.recalls && !w.recalls[q].invalidated && w.now < w.recalls[q].expiresAt)
  }

  lemma {:induction false} BelowT0Uses(w: World, cfg: Config, input: Input, ans: Answers, picks: seq<nat>, ws: WorkingSet, log: seq<Lru.Use>)
    requires Lru.Tracks(ws.entries, log, cfg.t0SizeLimit)
    ensures var (w', out) := BelowT0(w, cfg, input, ans, picks, ws);
            var given := if out.Results? then (if out.tier == T1 then [] else out.results)
                         else if StoresOnly(w, input, ans) then Fresh(w.chunks, input, ans, picks) else [];
            && KeyOf(input) in w'.t0 && w'.t0[KeyOf(input)].primed == ws.primed
            && Lru.Tracks(w'.t0[KeyOf(input)].entries, log + UsesOf(given), cfg.t0SizeLimit)
  {
    var served := Fresh(w.chunks, input, ans, picks);
    var none: seq<Merged> := [];
    assert log + UsesOf(none) == log;
    AddAllTracks(ws.entries, log, served, cfg.t0SizeLimit);
  }

  /** After a recall its working set is the least recently used cache of what was used before, then the
      profiles if this primed it, then what it was given. */
  lemma {:induction false} RecallUsesSet(w: World, cfg: Config, input: Input, ans: Answers, picks: seq<nat>, log: seq<Lru.Use>)
    requires SetsCoherent(w, None) && ProfilesFrom(w.chunks, input.Agent(), ans.profiles, cfg.t0SizeLimit)
    requires Lru.Tracks(WorkingSetFor(w, KeyOf(input)).entries, log, cfg.t0SizeLimit)
    ensures var after := Recalled(w, cfg, input, ans, picks).0.t0;
            && KeyOf(input) in after && after[KeyOf(input)].primed
            && Lru.Tracks(after[KeyOf(input)].entries,
                          log + UsesOf(Priming(w, input, ans)) + UsesOf(Given(w, cfg, input, ans, picks)), cfg.t0SizeLimit)
  {
    var (ws, found) := Searched(w, cfg, input, ans);
    var now := log + UsesOf(Priming(w, input, ans));
    SearchedTracks(w, cfg, input, ans, log);
    HitsAreHeld(w, cfg, input, ans);
    TouchAllTracks(ws.entries, now, HeldAll(ws.entries, found), cfg.t0SizeLimit);
    BelowT0Uses(w, cfg, input, ans, picks, ws, now);
  }

  /* ------------------------------------ all runs -------------------------------- */

  ghost predicate IsLru(es: seq<Slot>, cap: nat) {
    exists log :: Lru.Tracks(es, log, cap)
  }

  ghost predicate SetsAreLru(w: World, cap: nat) {
    forall key :: key in w.t0 ==> IsLru(w.t0[key].entries, cap)
  }

  lemma {:induction false} NoneIsLru(cap: nat)
    ensures IsLru([], cap)
  {
    var none: seq<Slot> := [];
    assert Lru.KeySet(none) == {} && Lru.Tracks(none, [], cap);
  }

  lemma {:induction false} RecallKeepsLru(w: World, cfg: Config, input: Input, ans: Answers, picks: seq<nat>, key: string)
    requires SetsCoherent(w, None) && SetsAreLru(w, cfg.t0SizeLimit)
    requires ProfilesFrom(w.chunks, input.Agent(), ans.profiles, cfg.t0SizeLimit) && key in Recalled(w, cfg, input, ans, picks).0.t0
    ensures IsLru(Recalled(w, cfg, input, ans, picks).0.t0[key].entries, cfg.t0SizeLimit)
  {
    if key == KeyOf(input) {
      var log := LogOf(w, cfg.t0SizeLimit, key);
      RecallUsesSet(w, cfg, input, ans, picks, log);
      assert IsLru(Recalled(w, cfg, input, ans, picks).0.t0[key].entries, cfg.t0SizeLimit);
    } else {
      OtherSetsStay(w, cfg, input, ans, picks, key);
    }
  }

  lemma {:induction false} LogOf(w: World, cap: nat, key: string) returns (log: seq<Lru.Use>)
    requires SetsAreLru(w, cap)
    ensures Lru.Tracks(WorkingSetFor(w, key).entries, log, cap)
  {
    NoneIsLru(cap);
    assert IsLru(WorkingSetFor(w, key).entries, cap);
    log :| Lru.Tracks(WorkingSetFor(w, key).entries, log, cap);
  }

  /** Any other event leaves the sets, drops one chunk from all of them, or empties the registry. */
  lemma {:induction false} OthersEvict(w: World, cfg: Config, e: Event)
    requires Enabled(w, cfg, e) && !e.Recall?
    ensures Step(w, cfg, e).t0 == w.t0 || Step(w, cfg, e).t0 == map[] || exists id :: Step(w, cfg, e).t0 == Evicted(w.t0, id)
  {
  }

  lemma {:induction false} StepKeepsLru(w: World, cfg: Config, e: Event, key: string)
    requires Enabled(w, cfg, e) && SetsCoherent(w, None) && SetsAreLru(w, cfg.t0SizeLimit) && key in Step(w, cfg, e).t0
    ensures IsLru(Step(w, cfg, e).t0[key].entries, cfg.t0SizeLimit)
  {
    if e.Recall? {
      RecallKeepsLru(w, cfg, e.input, e.ans, e.picks, key);
    } else {
      OthersEvict(w, cfg, e);
      OthersKeepLru(w, Step(w, cfg, e).t0, key, cfg.t0SizeLimit);
    }
  }

  lemma {:induction false} OthersKeepLru(w: World, t0: map<string, WorkingSet>, key: string, cap: nat)
    requires SetsAreLru(w, cap) && key in t0 && (t0 == w.t0 || t0 == map[] || exists id :: t0 == Evicted(w.t0, id))
    ensures IsLru(t0[key].entries, cap)
  {
    if t0 != w.t0 {
      var id :| t0 == Evicted(w.t0, id);
      EvictedIsLru(w, id, key, cap);
    }
  }

  lemma {:induction false} OtherSetsStay(w: World, cfg: Config, input: Input, ans: Answers, picks: seq<nat>, key: string)
    requires AllIn(ans.profiles, w.chunks) && KeyOf(input) != key && key in Recalled(w, cfg, input, ans, picks).0.t0
    ensures key in w.t0 && Recalled(w, cfg, input, ans, picks).0.t0[key] == w.t0[key]
  {
  }

  lemma {:induction false} EvictedIsLru(w: World, id: string, key: string, cap: nat)
    requires SetsAreLru(w, cap) && key in w.t0
    ensures IsLru(w.t0[key].entries, cap) && IsLru(Evicted(w.t0, id)[key].entries, cap)
  {
    var es := w.t0[key].entries;
    assert IsLru(es, cap);
    var log :| Lru.Tracks(es, log, cap);
    Lru.EvictTracks(es, log, id, cap);
  }

  lemma {:induction false} StepKeepsSets(w: World, cfg: Config, e: Event)
    requires Enabled(w, cfg, e) && SetsCoherent(w, None) && SetsAreLru(w, cfg.t0SizeLimit)
    ensures SetsAreLru(Step(w, cfg, e), cfg.t0SizeLimit)
  {
    var t0 := Step(w, cfg, e).t0;
    forall key | key in t0 ensures IsLru(t0[key].entries, cfg.t0SizeLimit) { StepKeepsLru(w, cfg, e, key); }
  }

  lemma {:induction false} LruIsBounded(es: seq<Slot>, cap: nat)
    requires IsLru(es, cap)
    ensures |es| <= cap && Lru.UniqueKeys(es)
  {
  }

  lemma {:induction false} RunKeepsSets(ws: seq<World>, cfg: Config, es: seq<Event>, n: nat)
    requires Run(ws, cfg, es) && n <= |es|
    ensures SetsAreLru(ws[n], cfg.t0SizeLimit)
  {
    if n > 0 {
      RunKeepsSets(ws, cfg, es, n - 1);
      CachesAgreeWithTable(ws, cfg, es, n - 1);
      assert StepAt(ws, cfg, es, n - 1);
      StepKeepsSets(ws[n - 1], cfg, es[n - 1]);
    }
  }

  /** In every reachable state every working set is the least recently used cache of some uses and
      evictions: no id twice, and never more than its size limit. */
  lemma {:induction false} WorkingSetsAreLru(ws: seq<World>, cfg: Config, es: seq<Event>, n: nat, key: string)
    requires Run(ws, cfg, es) && n <= |es| && key in ws[n].t0
    ensures var held := ws[n].t0[key].entries;
            IsLru(held, cfg.t0SizeLimit) && |held| <= cfg.t0SizeLimit && Lru.UniqueKeys(held)
  {
    RunKeepsSets(ws, cfg, es, n);
    LruIsBounded(ws[n].t0[key].entries, cfg.t0SizeLimit);
  }

  /* ---------------------------------- the scores -------------------------------- */

  /** What an entry's candidate becomes when a search finds it. */
  function Raised(c: Merged, rel: real): Merged {
    var s := c.combinedScore + rel / 5.0;
    Merged(c.chunkId, c.text, c.hits, if s > 1.0 then 1.0 else s)
  }

  lemma {:induction false} FindBoosted(es: seq<Slot>, f: Merged, id: string)
    ensures var before: Option<Lru.Held<Merged>> := Lru.Find(es, id);
            Lru.Find(BoostIn(es, f), id) ==
              if id == f.chunkId && before.Some?
              then Some(Lru.Held(Raised(before.value.candidate, f.combinedScore), before.value.hits)) else before
  {
    if es != [] { FindBoosted(es[1..], f, id); }
  }

  lemma {:induction false} UnfoundStays(es: seq<Slot>, found: seq<Merged>, id: string)
    requires forall i :: 0 <= i < |found| ==> found[i].chunkId != id
    ensures Lru.Find(BoostAll(es, found), id) == Lru.Find(es, id)
  {
    if found != [] {
      UnfoundStays(es, found[..|found| - 1], id);
      FindBoosted(BoostAll(es, found[..|found| - 1]), found[|found| - 1], id);
    }
  }

  lemma {:induction false} FoundIsRaised(es: seq<Slot>, found: seq<Merged>, i: nat)
    requires UniqueIds(found) && i < |found|
    ensures var before: Option<Lru.Held<Merged>> := Lru.Find(es, found[i].chunkId);
            before.Some? ==> Lru.Find(BoostAll(es, found), found[i].chunkId)
                             == Some(Lru.Held(Raised(before.value.candidate, found[i].combinedScore), before.value.hits))
  {
    var n := |found| - 1;
    FindBoosted(BoostAll(es, found[..n]), found[n], found[i].chunkId);
    if i < n {
      FoundIsRaised(es, found[..n], i);
    } else {
      UnfoundStays(es, found[..n], found[i].chunkId);
    }
  }

  lemma {:induction false} UniqueMatches(tx: Texts, query: string, es: seq<Slot>, chunks: map<string, Chunk>)
    requires AllHeld(chunks, None, es) && forall i, j :: 0 <= i < j < |es| ==> es[i].key != es[j].key
    ensures UniqueIds(Matching(tx, query, es))
    ensures forall c <- Matching(tx, query, es) :: exists i :: 0 <= i < |es| && es[i].key == c.chunkId
  {
    if es != [] {
      var n := |es| - 1;
      UniqueMatches(tx, query, es[..n], chunks);
      assert SlotGood(chunks, None, es[n]);
      forall c <- Matching(tx, query, es[..n]) ensures c.chunkId != es[n].key && exists i :: 0 <= i < |es| && es[i].key == c.chunkId {
        var i :| 0 <= i < n && es[..n][i].key == c.chunkId;
        assert es[i].key == c.chunkId;
      }
    }
  }

  lemma {:induction false} KeysDiffer(es: seq<Slot>, i: nat, j: nat)
    requires Lru.UniqueKeys(es) && i < j < |es|
    ensures es[i].key != es[j].key
  {
    if i == 0 {
      assert es[j] == es[1..][j - 1] && es[j] in es[1..];
    } else {
      KeysDiffer(es[1..], i - 1, j - 1);
    }
  }

  lemma {:induction false} SortedUnique(cs: seq<Merged>)
    requires UniqueIds(cs)
    ensures UniqueIds(SortByScore(cs))
  {
    SortPermutes(cs);
    var sorted := SortByScore(cs);
    forall i, j | 0 <= i < j < |sorted| ensures sorted[i].chunkId != sorted[j].chunkId {
      assert sorted[i] in multiset(sorted) && sorted[j] in multiset(sorted);
      assert sorted[i] in multiset(cs) && sorted[j] in multiset(cs);
      UniqueCount(cs, sorted[i]);
      CountedOnce(sorted, i, j);
    }
  }

  /** T0 shows an entry as it is held, its score raised by a fifth of its relevance, up to 1. */
  ghost predicate ShownFrom(tx: Texts, query: string, es: seq<Slot>, c: Merged) {
    exists e :: e in es && e.key == c.chunkId && c == Raised(e.value.candidate, Relevance(tx, query, e.value.candidate.text))
  }

  lemma {:induction false} HitsAreRaised(tx: Texts, query: string, k: nat, es: seq<Slot>, chunks: map<string, Chunk>, i: nat)
    requires AllHeld(chunks, None, es) && Lru.UniqueKeys(es) && i < |Found(tx, query, k, es)|
    ensures var found := Found(tx, query, k, es);
            ShownFrom(tx, query, es, HeldAll(BoostAll(es, found), found)[i])
  {
    var found := Found(tx, query, k, es);
    forall a, b | 0 <= a < b < |es| ensures es[a].key != es[b].key { KeysDiffer(es, a, b); }
    UniqueMatches(tx, query, es, chunks);
    SortedUnique(Matching(tx, query, es));
    FoundIsHeld(tx, query, k, es, chunks, i);
    Lru.FindInKeySet(es, found[i].chunkId);
    FoundIsRaised(es, found, i);
    MatchingIff(tx, query, es, found[i]);
    var e :| e in es && found[i] == e.value.candidate.(combinedScore := Relevance(tx, query, e.value.candidate.text));
    assert SlotGood(chunks, None, e);
    OnlyEntry(es, e);
  }

  lemma {:induction false} OnlyEntry(es: seq<Slot>, e: Slot)
    requires Lru.UniqueKeys(es) && e in es
    ensures Lru.Find(es, e.key) == Some(e.value)
  {
    if es[0] != e {
      OnlyEntry(es[1..], e);
    }
  }

  lemma {:induction false} RecallShowsRaised(w: World, cfg: Config, input: Input, ans: Answers, picks: seq<nat>, i: nat)
    requires SetsCoherent(w, None) && SetsAreLru(w, cfg.t0SizeLimit)
    requires ProfilesFrom(w.chunks, input.Agent(), ans.profiles, cfg.t0SizeLimit)
    ensures var es := Primed(w.chunks, WorkingSetFor(w, KeyOf(input)), ans.profiles, cfg.t0SizeLimit).entries;
            var out := Recalled(w, cfg, input, ans, picks).1;
            out.Results? && out.tier == T0 && i < |out.results| ==> ShownFrom(cfg.texts, input.query, es, out.results[i])
  {
    var es := Primed(w.chunks, WorkingSetFor(w, KeyOf(input)), ans.profiles, cfg.t0SizeLimit).entries;
    PrimedIsUnique(w, cfg, input, ans);
    PrimedIsHeld(w, cfg, input, ans);
    if i < |Found(cfg.texts, input.query, input.K(), es)| {
      HitsAreRaised(cfg.texts, input.query, input.K(), es, w.chunks, i);
    }
  }

  lemma {:induction false} PrimedIsUnique(w: World, cfg: Config, input: Input, ans: Answers)
    requires SetsAreLru(w, cfg.t0SizeLimit) && AllIn(ans.profiles, w.chunks)
    ensures Lru.UniqueKeys(Primed(w.chunks, WorkingSetFor(w, KeyOf(input)), ans.profiles, cfg.t0SizeLimit).entries)
  {
    var before := WorkingSetFor(w, KeyOf(input));
    var log := LogOf(w, cfg.t0SizeLimit, KeyOf(input));
    AddAllTracks(before.entries, log, Profiles(w.chunks, ans.profiles), cfg.t0SizeLimit);
  }

  /** In every run: each result that T0 shows is an entry of the primed set with its score raised by a
      fifth of its relevance to the query, up to 1. */
  lemma {:induction false} T0ShowsRaisedEntries(ws: seq<World>, cfg: Config, es: seq<Event>, n: nat, i: nat)
    requires Run(ws, cfg, es) && n < |es| && es[n].Recall?
    ensures StepAt(ws, cfg, es, n)
    ensures var w, input, ans := ws[n], es[n].input, es[n].ans;
            var out := Recalled(w, cfg, input, ans, es[n].picks).1;
            out.Results? && out.tier == T0 && i < |out.results| ==>
              ShownFrom(cfg.texts, input.query, Primed(w.chunks, WorkingSetFor(w, KeyOf(input)), ans.profiles, cfg.t0SizeLimit).entries, out.results[i])
  {
    assert StepAt(ws, cfg, es, n);
    CachesAgreeWithTable(ws, cfg, es, n);
    RunKeepsSets(ws, cfg, es, n);
    RecallShowsRaised(ws[n], cfg, es[n].input, es[n].ans, es[n].picks, i);
  }
}
