/** When the L0 answer cache answers, and with what (src/moderator/cache-precheck.ts). */
module CacheContents {
  import opened SeqTools
  import opened Lru

  /** The i-th store is the latest one for this question by this viewer in this scope. */
  ghost predicate LatestFor<H>(stores: seq<Answer<H>>, ask: Ask, i: int) {
    && 0 <= i < |stores| && stores[i].ask == ask
    && forall j :: i < j < |stores| ==> stores[j].ask != ask
  }

  /** An entry carries the latest store under its key. */
  ghost predicate Latest<H>(e: Entry<Stamped<H>>, stores: seq<Answer<H>>) {
    exists i :: 0 <= i < |stores| && LatestAt(e, stores, i)
  }

  ghost predicate LatestAt<H>(e: Entry<Stamped<H>>, stores: seq<Answer<H>>, i: nat)
    requires i < |stores|
  {
    && KeyOf(stores[i].ask) == e.key && stores[i].stamped == e.value
    && forall j :: i < j < |stores| ==> KeyOf(stores[j].ask) != e.key
  }

  ghost predicate AllLatest<H>(s: L0State<H>) {
    forall e :: e in s.entries ==> Latest(e, s.stores)
  }

  lemma {:induction false} StoreKeepsLatest<H>(e: Entry<Stamped<H>>, stores: seq<Answer<H>>, a: Answer<H>)
    requires e == Entry(KeyOf(a.ask), a.stamped) || (Latest(e, stores) && e.key != KeyOf(a.ask))
    ensures Latest(e, stores + [a])
  {
    var now := stores + [a];
    if e == Entry(KeyOf(a.ask), a.stamped) {
      assert LatestAt(e, now, |stores|);
    } else {
      var i :| 0 <= i < |stores| && LatestAt(e, stores, i);
      assert LatestAt(e, now, i);
    }
  }

  lemma {:induction false} LookupKeepsLatest<H>(s: L0State<H>, e: Precheck<H>)
    requires AllLatest(s) && L0Enabled(s, e) && e.Lookup?
    ensures AllLatest(L0Step(s, e))
  {
    var k := L0Key(e.scope, e.viewer, e.question);
    var found: Option<Stamped<H>> := Find(s.entries, k);
    WithoutKeys(s.entries, k);
    FindInKeySet(s.entries, k);
    if found.Some? { BumpMembers(s.entries, k, found.value, L0_CAP); }
  }

  lemma {:induction false} StepKeepsLatest<H>(s: L0State<H>, e: Precheck<H>)
    requires L0Inv(s) && AllLatest(s) && L0Enabled(s, e)
    ensures AllLatest(L0Step(s, e))
  {
    match e
    case Lookup(_, _, _, _) => LookupKeepsLatest(s, e);
    case Store(c, hit, now) =>
      var t := L0Step(s, e);
      var a := Answer(s.open[c], Stamped(hit, now));
      StoreAbsentIsBump(s.entries, KeyOf(a.ask), hit, now);
      BumpMembers(s.entries, KeyOf(a.ask), a.stamped, L0_CAP);
      forall x | x in t.entries ensures Latest(x, t.stores) { StoreKeepsLatest(x, s.stores, a); }
    case GiveUp(_) =>
  }

  lemma {:induction false} RunKeepsLatest<H>(ss: seq<L0State<H>>, es: seq<Precheck<H>>, n: nat)
    requires L0Run(ss, es) && n <= |es|
    ensures L0Inv(ss[n]) && AllLatest(ss[n])
  {
    L0RunKeeps(ss, es, n);
    if n > 0 {
      RunKeepsLatest(ss, es, n - 1);
      assert L0StepAt(ss, es, n - 1);
      StepKeepsLatest(ss[n - 1], es[n - 1]);
    }
  }

  /** Keys of plain scopes and viewers are as different as what is asked. */
  lemma {:induction false} KeysAreAsks(a: Ask, b: Ask)
    requires '|' !in a.scope && '|' !in a.viewer && '|' !in b.scope && '|' !in b.viewer
    ensures KeyOf(a) == KeyOf(b) <==> a == b
  {
    if KeyOf(a) == KeyOf(b) {
      L0KeyDeterminesScope(a.scope, a.viewer, a.question, b.scope, b.viewer, b.question);
    }
  }

  lemma {:induction false} HeldIsLatest<H>(s: L0State<H>, ask: Ask)
    requires L0Inv(s) && AllLatest(s) && '|' !in ask.scope && '|' !in ask.viewer
    ensures var held: Option<Stamped<H>> := Find(s.entries, KeyOf(ask));
            held.Some? ==> exists i :: LatestFor(s.stores, ask, i) && s.stores[i].stamped == held.value
  {
    var held: Option<Stamped<H>> := Find(s.entries, KeyOf(ask));
    FindInKeySet(s.entries, KeyOf(ask));
    if held.Some? {
      var e := Entry(KeyOf(ask), held.value);
      assert Latest(e, s.stores);
      var i :| 0 <= i < |s.stores| && LatestAt(e, s.stores, i);
      KeysAreAsks(s.stores[i].ask, ask);
      assert LatestFor(s.stores, ask, i);
    }
  }

  /** In every run: the cache answers a question exactly when the least recently used cache of 200 keys
      holds its key and the latest answer stored for it is at most five minutes old. It gives that
      answer. */
  lemma {:induction false} L0AnswersIff<H>(ss: seq<L0State<H>>, es: seq<Precheck<H>>, n: nat, ask: Ask, now: int, hit: H)
    requires L0Run(ss, es) && n <= |es| && '|' !in ask.scope && '|' !in ask.viewer
    ensures var s := ss[n];
            L0Lookup(s.entries, KeyOf(ask), now).1 == Some(hit) <==>
            Fate(s.uses, KeyOf(ask), 200).Some? &&
            exists i :: LatestFor(s.stores, ask, i) && s.stores[i].stamped.hit == hit && now <= s.stores[i].stamped.cachedAt + 300_000
  {
    var s := ss[n];
    RunKeepsLatest(ss, es, n);
    HeldIsLatest(s, ask);
    FindInKeySet(s.entries, KeyOf(ask));
  }

  /** So a question asked again within five minutes of its answer, with fewer than 200 other questions
      answered since, never leaves the process. */
  lemma {:induction false} RecentAnswerIsFound<H>(ss: seq<L0State<H>>, es: seq<Precheck<H>>, n: nat, ask: Ask, now: int, i: nat)
    requires L0Run(ss, es) && n <= |es| && '|' !in ask.scope && '|' !in ask.viewer
    requires LatestFor(ss[n].stores, ask, i) && now <= ss[n].stores[i].stamped.cachedAt + 300_000
    requires OthersSince(ss[n].uses, KeyOf(ask)).Some? && |OthersSince(ss[n].uses, KeyOf(ask)).value| < 200
    ensures L0Lookup(ss[n].entries, KeyOf(ask), now).1 == Some(ss[n].stores[i].stamped.hit)
  {
    WorkingSetKeepsRecent(ss[n].uses, KeyOf(ask), 200);
    L0AnswersIff(ss, es, n, ask, now, ss[n].stores[i].stamped.hit);
  }

  /* ------------------------------ working-set entries --------------------------- */

  lemma {:induction false} FindWithout<V>(es: seq<Entry<V>>, k: string, j: string)
    ensures Find(Without(es, k), j) == if j == k then None else Find(es, j)
  {
    if es != [] { FindWithout(es[1..], k, j); }
  }

  lemma {:induction false} FindSnoc<V>(es: seq<Entry<V>>, e: Entry<V>, j: string)
    ensures Find(es + [e], j) == if Find(es, j).Some? then Find(es, j) else if j == e.key then Some(e.value) else None
  {
    if es != [] {
      assert (es + [e])[1..] == es[1..] + [e];
      FindSnoc(es[1..], e, j);
    }
  }

  /** Touching adds one hit to its entry and keeps its candidate; no other entry changes. */
  lemma {:induction false} TouchCounts<C>(es: seq<Entry<Held<C>>>, id: string, j: string)
    ensures var before: Option<Held<C>> := Find(es, j);
            Find(WsTouch(es, id), j) ==
              if j == id && before.Some? then Some(Held(before.value.candidate, before.value.hits + 1)) else before
  {
    var found: Option<Held<C>> := Find(es, id);
    if found.Some? {
      FindWithout(es, id, j);
      FindSnoc(Without(es, id), Entry(id, found.value.(hits := found.value.hits + 1)), j);
    }
  }

  /** Adding replaces the candidate of a held entry and keeps its hits; a new entry starts with none
      and, when the set is full, takes the place of the oldest. */
  lemma {:induction false} AddReplaces<C>(es: seq<Entry<Held<C>>>, id: string, c: C, cap: nat, j: string)
    requires UniqueKeys(es) && |es| <= cap && cap > 0
    ensures var before: Option<Held<C>> := Find(es, j);
            var out := Find(es, id).None? && |es| == cap && j == es[0].key;
            Find(WsAdd(es, id, c, cap), j) ==
              if j == id then Some(Held(c, if before.Some? then before.value.hits else 0)) else if out then None else before
  {
    var found: Option<Held<C>> := Find(es, id);
    if found.Some? {
      FindWithout(es, id, j);
      FindSnoc(Without(es, id), Entry(id, Held(c, found.value.hits)), j);
    } else {
      var e := Entry(id, Held(c, 0));
      FindSnoc(es, e, j);
      if |es| == cap {
        assert (es + [e])[1..] == es[1..] + [e];
        FindSnoc(es[1..], e, j);
        FindInKeySet(es[1..], j);
      }
    }
  }
}
