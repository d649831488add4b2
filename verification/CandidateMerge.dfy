/** Merging extractor candidates (src/ingest/sidecar.ts) and the order in which the ingest pipeline
    merges them (src/ingest/pipeline.ts). What a candidate carries besides its key parts is one
    value of type D. */
module CandidateMerge {
  import opened SeqTools

  /* ------------------------------------ dedup ----------------------------------- */

  /** The first item of each key not seen yet, in order. */
  function DedupFrom<T>(items: seq<T>, keyOf: T -> string, seen: set<string>): seq<T> {
    if items == [] then []
    else
      var k := keyOf(items[0]);
      if k in seen then DedupFrom(items[1..], keyOf, seen)
      else [items[0]] + DedupFrom(items[1..], keyOf, seen + {k})
  }

  function Dedup<T>(items: seq<T>, keyOf: T -> string): seq<T> {
    DedupFrom(items, keyOf, {})
  }

  method DedupBy<T>(items: seq<T>, keyOf: T -> string) returns (out: seq<T>)
    ensures out == Dedup(items, keyOf)
  {
    var seen: set<string> := {};
    out := [];
    var n := 0;
    assert items[0..] == items;
    while n < |items|
      invariant n <= |items|
      invariant out + DedupFrom(items[n..], keyOf, seen) == Dedup(items, keyOf)
    {
      var item := items[n];
      var k := keyOf(item);
      assert items[n..][1..] == items[n + 1..];
      n := n + 1;
      if k in seen { continue; }
      assert out + ([item] + DedupFrom(items[n..], keyOf, seen + {k})) == out + [item] + DedupFrom(items[n..], keyOf, seen + {k});
      seen := seen + {k};
      out := out + [item];
    }
    assert out + [] == out;
  }

  function Keys<T>(items: seq<T>, keyOf: T -> string): set<string> {
    if items == [] then {} else {keyOf(items[0])} + Keys(items[1..], keyOf)
  }

  /** The first item with a key. */
  function FirstWith<T>(items: seq<T>, keyOf: T -> string, k: string): Option<T> {
    if items == [] then None
    else if keyOf(items[0]) == k then Some(items[0])
    else FirstWith(items[1..], keyOf, k)
  }

  ghost predicate NoRepeats<T>(items: seq<T>, keyOf: T -> string) {
    items == [] || (keyOf(items[0]) !in Keys(items[1..], keyOf) && NoRepeats(items[1..], keyOf))
  }

  lemma {:induction false} DedupFromKeeps<T>(items: seq<T>, keyOf: T -> string, seen: set<string>, k: string)
    ensures var out := DedupFrom(items, keyOf, seen);
            && NoRepeats(out, keyOf) && Keys(out, keyOf) == Keys(items, keyOf) - seen
            && FirstWith(out, keyOf, k) == if k in seen then None else FirstWith(items, keyOf, k)
  {
    if items != [] {
      var j := keyOf(items[0]);
      if j in seen {
        DedupFromKeeps(items[1..], keyOf, seen, k);
      } else {
        DedupFromKeeps(items[1..], keyOf, seen + {j}, k);
        var rest := DedupFrom(items[1..], keyOf, seen + {j});
        assert ([items[0]] + rest)[1..] == rest;
      }
    }
  }

  /** Deduplication keeps, for every key, exactly the first item that has it: no key repeats, none
      is lost, none is added. */
  lemma {:induction false} DedupIsFirstWins<T>(items: seq<T>, keyOf: T -> string, k: string)
    ensures NoRepeats(Dedup(items, keyOf), keyOf)
    ensures Keys(Dedup(items, keyOf), keyOf) == Keys(items, keyOf)
    ensures FirstWith(Dedup(items, keyOf), keyOf, k) == FirstWith(items, keyOf, k)
  {
    DedupFromKeeps(items, keyOf, {}, k);
  }

  lemma {:induction false} DedupFromAppend<T>(a: seq<T>, b: seq<T>, keyOf: T -> string, seen: set<string>)
    ensures DedupFrom(a + b, keyOf, seen) == DedupFrom(a, keyOf, seen) + DedupFrom(b, keyOf, seen + Keys(a, keyOf))
  {
    if a == [] {
      assert a + b == b && seen + Keys(a, keyOf) == seen;
    } else {
      var k := keyOf(a[0]);
      assert (a + b)[1..] == a[1..] + b;
      if k in seen {
        DedupFromAppend(a[1..], b, keyOf, seen);
        assert seen + Keys(a, keyOf) == seen + Keys(a[1..], keyOf);
      } else {
        DedupFromAppend(a[1..], b, keyOf, seen + {k});
        assert seen + Keys(a, keyOf) == seen + {k} + Keys(a[1..], keyOf);
        assert [a[0]] + (DedupFrom(a[1..], keyOf, seen + {k}) + DedupFrom(b, keyOf, seen + {k} + Keys(a[1..], keyOf)))
            == [a[0]] + DedupFrom(a[1..], keyOf, seen + {k}) + DedupFrom(b, keyOf, seen + {k} + Keys(a[1..], keyOf));
      }
    }
  }

  /** Deduplicating first against fewer keys changes nothing. */
  lemma {:induction false} DedupFromTwice<T>(items: seq<T>, keyOf: T -> string, fewer: set<string>, seen: set<string>)
    requires fewer <= seen
    ensures DedupFrom(DedupFrom(items, keyOf, fewer), keyOf, seen) == DedupFrom(items, keyOf, seen)
  {
    if items != [] {
      var k, rest := keyOf(items[0]), items[1..];
      if k in fewer {
        DedupFromTwice(rest, keyOf, fewer, seen);
      } else {
        var inner := DedupFrom(rest, keyOf, fewer + {k});
        assert ([items[0]] + inner)[1..] == inner;
        DedupFromTwice(rest, keyOf, fewer + {k}, if k in seen then seen else seen + {k});
      }
    }
  }

  /** Either part of a concatenation may be deduplicated beforehand. */
  lemma {:induction false} DedupAbsorbs<T>(a: seq<T>, b: seq<T>, keyOf: T -> string)
    ensures Dedup(a + Dedup(b, keyOf), keyOf) == Dedup(a + b, keyOf)
    ensures Dedup(Dedup(a, keyOf) + b, keyOf) == Dedup(a + b, keyOf)
  {
    DedupFromAppend(a, b, keyOf, {});
    DedupFromAppend(a, Dedup(b, keyOf), keyOf, {});
    DedupFromAppend(Dedup(a, keyOf), b, keyOf, {});
    DedupFromTwice(b, keyOf, {}, {} + Keys(a, keyOf));
    DedupFromTwice(a, keyOf, {}, {});
    DedupIsFirstWins(a, keyOf, "");
  }

  /* ------------------------------- extractor results ---------------------------- */

  datatype Entity<D> = Entity(kind: string, canonicalName: string, detail: D)
  datatype Event<D> = Event(isoTs: string, kind: string, detail: D)
  datatype Preference<D> = Preference(scope: string, key: string, detail: D)
  datatype Metric<D> = Metric(isoTs: string, metric: string, dimJson: string, detail: D)
  datatype Commitment<D> = Commitment(kind: string, directive: string, detail: D)

  function EntityKey<D>(): Entity<D> -> string { (e: Entity<D>) => e.kind + "|" + e.canonicalName }

  /** Events count as the same within a minute: the first 16 characters of the time stamp. */
  function EventKey<D>(): Event<D> -> string {
    (e: Event<D>) => (if |e.isoTs| <= 16 then e.isoTs else e.isoTs[..16]) + "|" + e.kind
  }

  function PreferenceKey<D>(): Preference<D> -> string { (p: Preference<D>) => p.scope + "|" + p.key }

  function MetricKey<D>(): Metric<D> -> string { (m: Metric<D>) => m.isoTs + "|" + m.metric + "|" + m.dimJson }

  function CommitmentKey<D>(): Commitment<D> -> string { (c: Commitment<D>) => c.kind + "|" + c.directive }

  datatype Extracted<D> = Extracted(entities: seq<Entity<D>>, relations: seq<D>, events: seq<Event<D>>,
                                    preferences: seq<Preference<D>>, metrics: seq<Metric<D>>,
                                    commitments: seq<Commitment<D>>, version: string)

  /** All candidates of both, in order, with the version of the first. */
  function Joined<D>(a: Extracted<D>, b: Extracted<D>): Extracted<D> {
    Extracted(a.entities + b.entities, a.relations + b.relations, a.events + b.events,
              a.preferences + b.preferences, a.metrics + b.metrics, a.commitments + b.commitments, a.version)
  }

  /** Relations are not deduplicated. */
  function Deduped<D>(x: Extracted<D>): Extracted<D> {
    Extracted(Dedup(x.entities, EntityKey()), x.relations, Dedup(x.events, EventKey()),
              Dedup(x.preferences, PreferenceKey()), Dedup(x.metrics, MetricKey()),
              Dedup(x.commitments, CommitmentKey()), x.version)
  }

  method MergeExtractorResults<D>(primary: Extracted<D>, secondary: Extracted<D>) returns (merged: Extracted<D>)
    ensures merged == Deduped(Joined(primary, secondary))
  {
    var entities := DedupBy(primary.entities + secondary.entities, EntityKey());
    var events := DedupBy(primary.events + secondary.events, EventKey());
    var preferences := DedupBy(primary.preferences + secondary.preferences, PreferenceKey());
    var metrics := DedupBy(primary.metrics + secondary.metrics, MetricKey());
    var commitments := DedupBy(primary.commitments + secondary.commitments, CommitmentKey());
    merged := Extracted(entities, primary.relations + secondary.relations, events, preferences, metrics,
                        commitments, primary.version);
  }

  lemma {:induction false} JoinedIsAssociative<D>(a: Extracted<D>, b: Extracted<D>, c: Extracted<D>)
    ensures Joined(Joined(a, b), c) == Joined(a, Joined(b, c))
  {
    assert (a.entities + b.entities) + c.entities == a.entities + (b.entities + c.entities);
    assert (a.relations + b.relations) + c.relations == a.relations + (b.relations + c.relations);
    assert (a.events + b.events) + c.events == a.events + (b.events + c.events);
    assert (a.preferences + b.preferences) + c.preferences == a.preferences + (b.preferences + c.preferences);
    assert (a.metrics + b.metrics) + c.metrics == a.metrics + (b.metrics + c.metrics);
    assert (a.commitments + b.commitments) + c.commitments == a.commitments + (b.commitments + c.commitments);
  }

  lemma {:induction false} DedupedAbsorbs<D>(a: Extracted<D>, b: Extracted<D>)
    ensures Deduped(Joined(a, Deduped(b))) == Deduped(Joined(a, b)) == Deduped(Joined(Deduped(a), b))
  {
    DedupAbsorbs(a.entities, b.entities, EntityKey());
    DedupAbsorbs(a.events, b.events, EventKey());
    DedupAbsorbs(a.preferences, b.preferences, PreferenceKey());
    DedupAbsorbs(a.metrics, b.metrics, MetricKey());
    DedupAbsorbs(a.commitments, b.commitments, CommitmentKey());
  }

  /** Merging is associative: merging the residual with the merge of sidecar and deterministic, or
      the merge of residual and sidecar with deterministic, is one first-wins deduplication of all
      three in that order. */
  lemma {:induction false} MergeIsAssociative<D>(residual: Extracted<D>, sidecar: Extracted<D>, det: Extracted<D>)
    ensures Deduped(Joined(residual, Deduped(Joined(sidecar, det))))
         == Deduped(Joined(residual, Joined(sidecar, det)))
         == Deduped(Joined(Deduped(Joined(residual, sidecar)), det))
  {
    DedupedAbsorbs(residual, Joined(sidecar, det));
    DedupedAbsorbs(Joined(residual, sidecar), det);
    JoinedIsAssociative(residual, sidecar, det);
  }

  lemma {:induction false} FirstWithAppend<T>(a: seq<T>, b: seq<T>, keyOf: T -> string, k: string)
    ensures FirstWith(a + b, keyOf, k) == if FirstWith(a, keyOf, k).Some? then FirstWith(a, keyOf, k) else FirstWith(b, keyOf, k)
  {
    if a == [] {
      assert a + b == b;
    } else {
      FirstWithAppend(a[1..], b, keyOf, k);
      assert (a + b)[1..] == a[1..] + b;
    }
  }

  /** The primary's candidate for a key wins whatever else the two carry, confidences included. */
  lemma {:induction false} PrimaryWins<T>(primary: seq<T>, secondary: seq<T>, keyOf: T -> string, k: string)
    ensures FirstWith(Dedup(primary + secondary, keyOf), keyOf, k) ==
            if FirstWith(primary, keyOf, k).Some? then FirstWith(primary, keyOf, k) else FirstWith(secondary, keyOf, k)
  {
    DedupIsFirstWins(primary + secondary, keyOf, k);
    FirstWithAppend(primary, secondary, keyOf, k);
  }

  /* ------------------------------- what ingest merges --------------------------- */

  datatype Path = Deterministic | SidecarPath | LlmResidual

  /** The extractor result ingest goes on with; sidecar and residual are None when absent, not
      parsed, or gated off. */
  method Extract<D>(det: Extracted<D>, sidecar: Option<Extracted<D>>, residual: Option<Extracted<D>>)
      returns (extractor: Extracted<D>, path: Path)
    ensures extractor == Chosen(det, sidecar, residual)
    ensures path == if residual.Some? then LlmResidual else if sidecar.Some? then SidecarPath else Deterministic
  {
    extractor, path := det, Deterministic;
    if sidecar.Some? {
      extractor := MergeExtractorResults(sidecar.value, det);
      path := SidecarPath;
    }
    if residual.Some? {
      extractor := MergeExtractorResults(residual.value, extractor);
      path := LlmResidual;
    }
    match (sidecar, residual) {
      case (Some(s), Some(r)) => MergeIsAssociative(r, s, det);
      case _ =>
    }
  }

  /** All sources at once: the residual first, then the sidecar, then the deterministic result; the
      deterministic result alone is taken as it is. */
  function Chosen<D>(det: Extracted<D>, sidecar: Option<Extracted<D>>, residual: Option<Extracted<D>>): Extracted<D> {
    if sidecar.None? && residual.None? then det
    else
      var rest := if sidecar.Some? then Joined(sidecar.value, det) else det;
      Deduped(if residual.Some? then Joined(residual.value, rest) else rest)
  }

  lemma {:induction false} NoRepeatsIffDedup<T>(items: seq<T>, keyOf: T -> string, seen: set<string>)
    requires Keys(items, keyOf) !! seen
    ensures NoRepeats(items, keyOf) <==> DedupFrom(items, keyOf, seen) == items
  {
    if items != [] {
      var k, rest := keyOf(items[0]), items[1..];
      if k in Keys(rest, keyOf) {
        DedupFromKeeps(rest, keyOf, seen + {k}, k);
        assert Keys(DedupFrom(rest, keyOf, seen + {k}), keyOf) != Keys(rest, keyOf);
        assert ([items[0]] + DedupFrom(rest, keyOf, seen + {k}))[1..] != rest;
      } else {
        NoRepeatsIffDedup(rest, keyOf, seen + {k});
        assert ([items[0]] + DedupFrom(rest, keyOf, seen + {k}))[1..] == DedupFrom(rest, keyOf, seen + {k});
      }
    }
  }

  /** The deduplicated kinds of an extractor result each repeat no key. */
  ghost predicate RepeatsNone<D>(x: Extracted<D>) {
    && NoRepeats(x.entities, EntityKey()) && NoRepeats(x.events, EventKey())
    && NoRepeats(x.preferences, PreferenceKey()) && NoRepeats(x.metrics, MetricKey())
    && NoRepeats(x.commitments, CommitmentKey())
  }

  lemma {:induction false} DedupedRepeatsNone<D>(x: Extracted<D>)
    ensures RepeatsNone(Deduped(x))
  {
    DedupIsFirstWins(x.entities, EntityKey(), "");
    DedupIsFirstWins(x.events, EventKey(), "");
    DedupIsFirstWins(x.preferences, PreferenceKey(), "");
    DedupIsFirstWins(x.metrics, MetricKey(), "");
    DedupIsFirstWins(x.commitments, CommitmentKey(), "");
  }

  lemma {:induction false} RepeatsNoneIffDeduped<D>(x: Extracted<D>)
    ensures RepeatsNone(x) <==> Deduped(x) == x
  {
    NoRepeatsIffDedup(x.entities, EntityKey(), {});
    NoRepeatsIffDedup(x.events, EventKey(), {});
    NoRepeatsIffDedup(x.preferences, PreferenceKey(), {});
    NoRepeatsIffDedup(x.metrics, MetricKey(), {});
    NoRepeatsIffDedup(x.commitments, CommitmentKey(), {});
  }

  /** What ingest goes on with repeats no key of any kind exactly when some merge took place or the
      deterministic result repeats none, which deduplication would then leave as it is. */
  lemma {:induction false} ChosenRepeatsNoneIff<D>(det: Extracted<D>, sidecar: Option<Extracted<D>>, residual: Option<Extracted<D>>)
    ensures RepeatsNone(Chosen(det, sidecar, residual)) <==> sidecar.Some? || residual.Some? || Deduped(det) == det
  {
    var rest := if sidecar.Some? then Joined(sidecar.value, det) else det;
    DedupedRepeatsNone(if residual.Some? then Joined(residual.value, rest) else rest);
    RepeatsNoneIffDeduped(det);
  }
}
