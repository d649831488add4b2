/** Which extractor's candidate ingest goes on with (src/ingest/sidecar.ts, src/ingest/pipeline.ts),
    told by what the candidates say and not by the keys they are compared with. */
module CandidatePrecedence {
  import opened SeqTools
  import opened CandidateMerge
  import Strings

  /** The first item that satisfies p. */
  function First<T>(items: seq<T>, p: T -> bool): Option<T> {
    if items == [] then None else if p(items[0]) then Some(items[0]) else First(items[1..], p)
  }

  function Else<T>(a: Option<T>, b: Option<T>): Option<T> {
    if a.Some? then a else b
  }

  /** The first list's item, else the second's, else the third's. */
  function Preferred<T>(a: seq<T>, b: seq<T>, c: seq<T>, p: T -> bool): Option<T> {
    Else(First(a, p), Else(First(b, p), First(c, p)))
  }

  /** No two different places hold items that satisfy p. */
  ghost predicate AtMostOne<T>(items: seq<T>, p: T -> bool) {
    forall i, j :: 0 <= i < j < |items| ==> !(p(items[i]) && p(items[j]))
  }

  /** Among these items, p is to have key k. */
  ghost predicate Means<T>(items: seq<T>, keyOf: T -> string, k: string, p: T -> bool) {
    forall i :: 0 <= i < |items| ==> (keyOf(items[i]) == k <==> p(items[i]))
  }

  lemma {:induction false} FirstIsFirstWith<T>(items: seq<T>, keyOf: T -> string, k: string, p: T -> bool)
    requires Means(items, keyOf, k, p)
    ensures First(items, p) == FirstWith(items, keyOf, k)
  {
    if items != [] {
      assert keyOf(items[0]) == k <==> p(items[0]);
      FirstIsFirstWith(items[1..], keyOf, k, p);
    }
  }

  lemma {:induction false} KeyIn<T>(items: seq<T>, keyOf: T -> string, i: nat)
    requires i < |items|
    ensures keyOf(items[i]) in Keys(items, keyOf)
  {
    if i > 0 { KeyIn(items[1..], keyOf, i - 1); }
  }

  lemma {:induction false} NoRepeatsOne<T>(items: seq<T>, keyOf: T -> string, k: string, p: T -> bool)
    requires NoRepeats(items, keyOf) && Means(items, keyOf, k, p)
    ensures AtMostOne(items, p)
  {
    if items != [] {
      NoRepeatsOne(items[1..], keyOf, k, p);
      forall j | 0 < j < |items| ensures !(p(items[0]) && p(items[j])) { KeyIn(items[1..], keyOf, j - 1); }
      forall i, j | 0 <= i < j < |items| ensures !(p(items[i]) && p(items[j])) {
        if i > 0 { assert items[1..][i - 1] == items[i] && items[1..][j - 1] == items[j]; }
      }
    }
  }

  lemma {:induction false} DedupFromSubset<T>(items: seq<T>, keyOf: T -> string, seen: set<string>)
    ensures forall x :: x in DedupFrom(items, keyOf, seen) ==> x in items
  {
    if items != [] {
      DedupFromSubset(items[1..], keyOf, seen);
      DedupFromSubset(items[1..], keyOf, seen + {keyOf(items[0])});
    }
  }

  /** Three lists deduplicated in this order: the first list that has the key wins it. */
  lemma {:induction false} FirstOfThree<T>(a: seq<T>, b: seq<T>, c: seq<T>, keyOf: T -> string, k: string, p: T -> bool)
    requires Means(a + (b + c), keyOf, k, p)
    ensures var out := Dedup(a + (b + c), keyOf);
            First(out, p) == Preferred(a, b, c, p) && AtMostOne(out, p)
  {
    var all := a + (b + c);
    var out := Dedup(all, keyOf);
    DedupFromSubset(all, keyOf, {});
    DedupIsFirstWins(all, keyOf, k);
    forall i | 0 <= i < |out| ensures keyOf(out[i]) == k <==> p(out[i]) { assert out[i] in all; }
    NoRepeatsOne(out, keyOf, k, p);
    FirstIsFirstWith(out, keyOf, k, p);
    forall i | 0 <= i < |a| ensures keyOf(a[i]) == k <==> p(a[i]) { assert all[i] == a[i]; }
    forall i | 0 <= i < |b| ensures keyOf(b[i]) == k <==> p(b[i]) { assert all[|a| + i] == b[i]; }
    forall i | 0 <= i < |c| ensures keyOf(c[i]) == k <==> p(c[i]) { assert all[|a| + |b| + i] == c[i]; }
    FirstIsFirstWith(a, keyOf, k, p);
    FirstIsFirstWith(b, keyOf, k, p);
    FirstIsFirstWith(c, keyOf, k, p);
    FirstWithAppend(a, b + c, keyOf, k);
    FirstWithAppend(b, c, keyOf, k);
  }

  /* ------------------------------------- keys ----------------------------------- */

  function EventMinute(isoTs: string): string {
    if |isoTs| < 16 then isoTs else isoTs[..16]
  }

  function NamedEntity<D>(kind: string, name: string): Entity<D> -> bool {
    (e: Entity<D>) => e.kind == kind && e.canonicalName == name
  }
  function TimedEvent<D>(minute: string, kind: string): Event<D> -> bool {
    (e: Event<D>) => EventMinute(e.isoTs) == minute && e.kind == kind
  }
  function ScopedPreference<D>(scope: string, key: string): Preference<D> -> bool {
    (p: Preference<D>) => p.scope == scope && p.key == key
  }
  function TimedMetric<D>(isoTs: string, metric: string, dimJson: string): Metric<D> -> bool {
    (m: Metric<D>) => m.isoTs == isoTs && m.metric == metric && m.dimJson == dimJson
  }
  function Directed<D>(kind: string, directive: string): Commitment<D> -> bool {
    (c: Commitment<D>) => c.kind == kind && c.directive == directive
  }

  /** A key of two parts, the first of them without a bar, tells both parts. */
  lemma {:induction false} BarKeyIff(a: string, x: string, b: string, y: string)
    requires '|' !in a && '|' !in b
    ensures a + "|" + x == b + "|" + y <==> a == b && x == y
  {
    if a + "|" + x == b + "|" + y {
      assert a + ['|'] + x == b + ['|'] + y;
      Strings.FirstCharSplits('|', a, x, b, y);
    }
  }

  lemma {:induction false} MetricKeyIff(t: string, m: string, d: string, t': string, m': string, d': string)
    requires '|' !in t && '|' !in t' && '|' !in m && '|' !in m'
    ensures t + "|" + m + "|" + d == t' + "|" + m' + "|" + d' <==> t == t' && m == m' && d == d'
  {
    assert t + "|" + m + "|" + d == t + "|" + (m + "|" + d);
    assert t' + "|" + m' + "|" + d' == t' + "|" + (m' + "|" + d');
    BarKeyIff(t, m + "|" + d, t', m' + "|" + d');
    BarKeyIff(m, d, m', d');
  }

  /** Two scopes can give two preferences one key exactly when one scope, a bar added, begins the
      other. */
  lemma {:induction false} ScopesCollideIff(s: string, t: string)
    ensures (exists k, j :: s + "|" + k == t + "|" + j) <==> s + "|" <= t + "|" || t + "|" <= s + "|"
  {
    if k, j :| s + "|" + k == t + "|" + j {
      var whole := s + "|" + k;
      assert s + "|" == whole[..|s| + 1] && t + "|" == whole[..|t| + 1];
      if |s| <= |t| { assert s + "|" == (t + "|")[..|s| + 1]; } else { assert t + "|" == (s + "|")[..|t| + 1]; }
    }
    if s + "|" <= t + "|" {
      assert s + "|" + (t + "|")[|s| + 1..] == t + "|" + "";
    }
    if t + "|" <= s + "|" {
      assert t + "|" + (s + "|")[|t| + 1..] == s + "|" + "";
    }
  }

  /* --------------------------------- main results ------------------------------- */

  /** No extractor result is as good as an empty one. */
  function OrEmpty<D>(x: Option<Extracted<D>>): Extracted<D> {
    if x.Some? then x.value else Extracted([], [], [], [], [], [], "")
  }

  lemma {:induction false} EmptyJoins<D>(x: Extracted<D>)
    ensures Joined(OrEmpty(None), x) == x.(version := "")
  {
    var none: Extracted<D> := OrEmpty(None);
    assert none.entities + x.entities == x.entities && none.relations + x.relations == x.relations;
    assert none.events + x.events == x.events && none.preferences + x.preferences == x.preferences;
    assert none.metrics + x.metrics == x.metrics && none.commitments + x.commitments == x.commitments;
  }

  lemma {:induction false} ChosenJoins<D>(det: Extracted<D>, sidecar: Option<Extracted<D>>, residual: Option<Extracted<D>>)
    requires sidecar.Some? || residual.Some?
    ensures Chosen(det, sidecar, residual).(version := "")
         == Deduped(Joined(OrEmpty(residual), Joined(OrEmpty(sidecar), det))).(version := "")
  {
    EmptyJoins(det);
    EmptyJoins(Joined(OrEmpty(sidecar), det));
  }

  /** What every kind of key needs to tell its parts: bars only in the last one. */
  ghost predicate PlainKeys<D>(x: Extracted<D>) {
    && (forall i :: 0 <= i < |x.entities| ==> '|' !in x.entities[i].kind)
    && (forall i :: 0 <= i < |x.events| ==> '|' !in x.events[i].isoTs)
    && (forall i :: 0 <= i < |x.preferences| ==> '|' !in x.preferences[i].scope)
    && (forall i :: 0 <= i < |x.metrics| ==> '|' !in x.metrics[i].isoTs && '|' !in x.metrics[i].metric)
    && (forall i :: 0 <= i < |x.commitments| ==> '|' !in x.commitments[i].kind)
  }

  lemma {:induction false} JoinedIsPlain<D>(a: Extracted<D>, b: Extracted<D>)
    requires PlainKeys(a) && PlainKeys(b)
    ensures PlainKeys(Joined(a, b))
  {
  }

  lemma {:induction false} KeysMeanParts<D>(x: Extracted<D>, kind: string, name: string)
    requires PlainKeys(x) && '|' !in kind
    ensures Means(x.entities, EntityKey(), kind + "|" + name, NamedEntity(kind, name))
    ensures Means(x.events, EventKey(), kind + "|" + name, TimedEvent(kind, name))
    ensures Means(x.preferences, PreferenceKey(), kind + "|" + name, ScopedPreference(kind, name))
    ensures Means(x.commitments, CommitmentKey(), kind + "|" + name, Directed(kind, name))
  {
    forall a: string, y: string | '|' !in a ensures a + "|" + y == kind + "|" + name <==> a == kind && y == name {
      BarKeyIff(a, y, kind, name);
    }
    EventKeysMeanParts(x.events, kind, name);
  }

  lemma {:induction false} EventKeysMeanParts<D>(events: seq<Event<D>>, minute: string, kind: string)
    requires (forall i :: 0 <= i < |events| ==> '|' !in events[i].isoTs) && '|' !in minute
    ensures Means(events, EventKey(), minute + "|" + kind, TimedEvent(minute, kind))
  {
    forall i | 0 <= i < |events| ensures EventKey()(events[i]) == minute + "|" + kind <==> TimedEvent(minute, kind)(events[i]) {
      var e := events[i];
      assert EventKey()(e) == EventMinute(e.isoTs) + "|" + e.kind;
      BarKeyIff(EventMinute(e.isoTs), e.kind, minute, kind);
    }
  }

  lemma {:induction false} MetricKeysMeanParts<D>(metrics: seq<Metric<D>>, isoTs: string, metric: string, dimJson: string)
    requires forall i :: 0 <= i < |metrics| ==> '|' !in metrics[i].isoTs && '|' !in metrics[i].metric
    requires '|' !in isoTs && '|' !in metric
    ensures Means(metrics, MetricKey(), isoTs + "|" + metric + "|" + dimJson, TimedMetric(isoTs, metric, dimJson))
  {
    forall i | 0 <= i < |metrics|
      ensures MetricKey()(metrics[i]) == isoTs + "|" + metric + "|" + dimJson <==> TimedMetric(isoTs, metric, dimJson)(metrics[i])
    {
      MetricKeyIff(metrics[i].isoTs, metrics[i].metric, metrics[i].dimJson, isoTs, metric, dimJson);
    }
  }

  /** Once there is anything to merge, each entity (by kind and name), event (by minute and kind),
      preference (by scope and key) and commitment (by kind and directive) occurs at most once, as the
      residual has it, else as the sidecar has it, else as the deterministic result has it. */
  lemma {:induction false} CandidatesTakePrecedence<D>(det: Extracted<D>, sidecar: Option<Extracted<D>>, residual: Option<Extracted<D>>,
                                                       kind: string, name: string)
    requires sidecar.Some? || residual.Some?
    requires PlainKeys(det) && PlainKeys(OrEmpty(sidecar)) && PlainKeys(OrEmpty(residual)) && '|' !in kind
    ensures var x, s, r := Chosen(det, sidecar, residual), OrEmpty(sidecar), OrEmpty(residual);
            && First(x.entities, NamedEntity(kind, name)) == Preferred(r.entities, s.entities, det.entities, NamedEntity(kind, name))
            && First(x.events, TimedEvent(kind, name)) == Preferred(r.events, s.events, det.events, TimedEvent(kind, name))
            && First(x.preferences, ScopedPreference(kind, name))
               == Preferred(r.preferences, s.preferences, det.preferences, ScopedPreference(kind, name))
            && First(x.commitments, Directed(kind, name)) == Preferred(r.commitments, s.commitments, det.commitments, Directed(kind, name))
            && AtMostOne(x.entities, NamedEntity(kind, name)) && AtMostOne(x.events, TimedEvent(kind, name))
            && AtMostOne(x.preferences, ScopedPreference(kind, name)) && AtMostOne(x.commitments, Directed(kind, name))
  {
    var s, r := OrEmpty(sidecar), OrEmpty(residual);
    var all, k := Joined(r, Joined(s, det)), kind + "|" + name;
    ChosenJoins(det, sidecar, residual);
    JoinedIsPlain(s, det);
    JoinedIsPlain(r, Joined(s, det));
    KeysMeanParts(all, kind, name);
    FirstOfThree(r.entities, s.entities, det.entities, EntityKey(), k, NamedEntity(kind, name));
    FirstOfThree(r.events, s.events, det.events, EventKey(), k, TimedEvent(kind, name));
    FirstOfThree(r.preferences, s.preferences, det.preferences, PreferenceKey(), k, ScopedPreference(kind, name));
    FirstOfThree(r.commitments, s.commitments, det.commitments, CommitmentKey(), k, Directed(kind, name));
  }

  /** So does each metric, by time, name and dimensions; all relations are kept, the residual's first;
      and the version is that of the most preferred result. */
  lemma {:induction false} MetricsTakePrecedence<D>(det: Extracted<D>, sidecar: Option<Extracted<D>>, residual: Option<Extracted<D>>,
                                                    isoTs: string, metric: string, dimJson: string)
    requires sidecar.Some? || residual.Some?
    requires PlainKeys(det) && PlainKeys(OrEmpty(sidecar)) && PlainKeys(OrEmpty(residual)) && '|' !in isoTs && '|' !in metric
    ensures var x, s, r := Chosen(det, sidecar, residual), OrEmpty(sidecar), OrEmpty(residual);
            && First(x.metrics, TimedMetric(isoTs, metric, dimJson))
               == Preferred(r.metrics, s.metrics, det.metrics, TimedMetric(isoTs, metric, dimJson))
            && AtMostOne(x.metrics, TimedMetric(isoTs, metric, dimJson))
            && x.relations == r.relations + s.relations + det.relations
            && x.version == if residual.Some? then r.version else s.version
  {
    var s, r := OrEmpty(sidecar), OrEmpty(residual);
    var all := Joined(r, Joined(s, det));
    ChosenJoins(det, sidecar, residual);
    JoinedIsPlain(s, det);
    JoinedIsPlain(r, Joined(s, det));
    MetricKeysMeanParts(all.metrics, isoTs, metric, dimJson);
    FirstOfThree(r.metrics, s.metrics, det.metrics, MetricKey(), isoTs + "|" + metric + "|" + dimJson, TimedMetric(isoTs, metric, dimJson));
    assert r.relations + (s.relations + det.relations) == r.relations + s.relations + det.relations;
  }

  lemma {:induction false} SecondIsLost<T>(x: T, y: T, keyOf: T -> string)
    requires keyOf(x) == keyOf(y)
    ensures Dedup([x, y], keyOf) == [x]
  {
    var seen := {} + {keyOf(x)};
    assert [x, y][1..] == [y] && [y][1..] == [];
    assert DedupFrom([y], keyOf, seen) == DedupFrom([y][1..], keyOf, seen) == [];
  }

  /** A scope with a bar can take another's key, and its candidate is lost. */
  lemma {:induction false} BarsCanMerge<D>(d: D)
    ensures var p, q := Preference("a", "b|c", d), Preference("a|b", "c", d);
            PreferenceKey()(p) == PreferenceKey()(q) && Dedup([p, q], PreferenceKey()) == [p]
  {
    var p, q := Preference("a", "b|c", d), Preference("a|b", "c", d);
    var keyOf: Preference<D> -> string := PreferenceKey();
    assert keyOf(p) == "a" + "|" + "b|c" == "a|b" + "|" + "c" == keyOf(q);
    SecondIsLost(p, q, keyOf);
  }
}
