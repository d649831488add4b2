/** Which preferences a chunk becomes a source of, and which later assertion marks it superseded
    (src/structured/reconcile.ts), in terms of what the chunks assert. */
module ReconcileSources {
  import opened SeqTools
  import opened Reconcile

  /* ------------------------------- rows keep their place ------------------------ */

  /** No row goes or changes its key or maker; new ones are made by this chunk. */
  ghost predicate GrowsBy<V>(prefs: seq<Pref<V>>, prefs': seq<Pref<V>>, chunk: nat) {
    && |prefs| <= |prefs'|
    && (forall j :: 0 <= j < |prefs| ==> prefs'[j].key == prefs[j].key && prefs'[j].createdBy == prefs[j].createdBy)
    && forall j :: |prefs| <= j < |prefs'| ==> prefs'[j].createdBy == chunk
  }

  lemma {:induction false} UpsertGrows<V>(st: Store<V>, p: Candidate<V>, chunk: nat)
    ensures GrowsBy(st.prefs, Upsert(st, p, chunk).0.prefs, chunk)
  {
  }

  lemma {:induction false} GrowsOn<V>(a: seq<Pref<V>>, b: seq<Pref<V>>, c: seq<Pref<V>>, chunk: nat)
    requires GrowsBy(a, b, chunk) && GrowsBy(b, c, chunk)
    ensures GrowsBy(a, c, chunk)
  {
  }

  lemma {:induction false} UpsertsSnoc<V>(st: Store<V>, ps: seq<Candidate<V>>, p: Candidate<V>, chunk: nat)
    ensures var before := Upserts(st, ps, chunk);
            var next := Upsert(before.0, p, chunk);
            Upserts(st, ps + [p], chunk) == (next.0, before.1 + [next.1])
  {
    assert (ps + [p])[..|ps|] == ps;
  }

  lemma {:induction false} UpsertsGrow<V>(st: Store<V>, ps: seq<Candidate<V>>, chunk: nat)
    ensures GrowsBy(st.prefs, Upserts(st, ps, chunk).0.prefs, chunk)
    ensures |Upserts(st, ps, chunk).1| == |ps|
  {
    if ps != [] {
      var init, p := ps[..|ps| - 1], ps[|ps| - 1];
      assert ps == init + [p];
      UpsertsSnoc(st, init, p, chunk);
      UpsertsGrow(st, init, chunk);
      var mid := Upserts(st, init, chunk).0;
      UpsertGrows(mid, p, chunk);
      GrowsOn(st.prefs, mid.prefs, Upsert(mid, p, chunk).0.prefs, chunk);
    }
  }

  /** The rows of a key stay in their places, new ones after them. */
  lemma {:induction false} IdsStay<V>(prefs: seq<Pref<V>>, prefs': seq<Pref<V>>, chunk: nat, k: Key)
    requires GrowsBy(prefs, prefs', chunk)
    ensures var ids, ids' := IdsOf(prefs, k), IdsOf(prefs', k);
            && |ids| <= |ids'| && (forall q :: 0 <= q < |ids| ==> ids'[q] == ids[q] < |prefs|)
            && forall q :: |ids| <= q < |ids'| ==> |prefs| <= ids'[q] < |prefs'|
  {
    if |prefs| < |prefs'| {
      IdsStay(prefs, prefs'[..|prefs'| - 1], chunk, k);
    } else if prefs != [] {
      var n := |prefs| - 1;
      assert prefs'[..n][..] == prefs'[..n];
      IdsStay(prefs[..n], prefs'[..n], chunk, k);
      SameIds(prefs[..n], prefs'[..n], k);
    }
  }

  lemma {:induction false} SameIds<V>(prefs: seq<Pref<V>>, prefs': seq<Pref<V>>, k: Key)
    requires |prefs| == |prefs'| && forall j :: 0 <= j < |prefs| ==> prefs'[j].key == prefs[j].key
    ensures IdsOf(prefs', k) == IdsOf(prefs, k)
  {
    if prefs != [] { SameIds(prefs[..|prefs| - 1], prefs'[..|prefs| - 1], k); }
  }

  /* --------------------------- the row an assertion names ----------------------- */

  /** How many runs the values asserted for a key make: the number of its rows. */
  function RunCount<V(==)>(ps: seq<Candidate<V>>, k: Key): nat {
    |Rle(Asserted(ps, k))|
  }

  /** Row id is the last of the rows that key k has once `said` has been asserted. */
  ghost predicate NamedBy<V>(prefs: seq<Pref<V>>, said: seq<Candidate<V>>, k: Key, id: nat) {
    var rows, q := IdsOf(prefs, k), RunCount(said, k);
    0 < q <= |rows| && id == rows[q - 1]
  }

  lemma {:induction false} UpsertNamesLast<V>(st: Store<V>, p: Candidate<V>, chunk: nat, before: seq<Candidate<V>>)
    requires Chained(st.prefs, before)
    ensures var (st', id) := Upsert(st, p, chunk); NamedBy(st'.prefs, before + [p], p.key, id)
  {
    UpsertKeepsChained(st, p, chunk, before);
    UpsertIsActive(st, p, chunk);
    SaidSnoc(before, p, p.key);
    ActiveNamed(Upsert(st, p, chunk).0.prefs, before + [p], p.key, Upsert(st, p, chunk).1);
  }

  lemma {:induction false} UpsertIsActive<V>(st: Store<V>, p: Candidate<V>, chunk: nat)
    ensures var (st', id) := Upsert(st, p, chunk); ActiveRow(st'.prefs, p.key, id)
  {
  }

  lemma {:induction false} ActiveNamed<V>(prefs: seq<Pref<V>>, said: seq<Candidate<V>>, k: Key, id: nat)
    requires Chained(prefs, said) && RunCount(said, k) > 0 && ActiveRow(prefs, k, id)
    ensures NamedBy(prefs, said, k, id)
  {
    var runs := Rle(Asserted(said, k));
    assert Chain(prefs, k, runs);
    ActiveIsUnique(prefs, k, runs, id);
    ActiveIsLast(prefs, k, runs);
  }

  lemma {:induction false} NamedStays<V>(prefs: seq<Pref<V>>, prefs': seq<Pref<V>>, chunk: nat, said: seq<Candidate<V>>, k: Key, id: nat)
    requires GrowsBy(prefs, prefs', chunk) && RunCount(said, k) <= |IdsOf(prefs, k)|
    ensures NamedBy(prefs', said, k, id) <==> NamedBy(prefs, said, k, id)
  {
    IdsStay(prefs, prefs', chunk, k);
  }

  /** The m-th candidate of a transaction is answered with the last row its key has by then. */
  ghost predicate Answered<V>(st: Store<V>, ps: seq<Candidate<V>>, chunk: nat, said: seq<Candidate<V>>, k: Key, m: nat) {
    var (st', ids) := Upserts(st, ps, chunk);
    m < |ids| && NamedBy(st'.prefs, said, k, ids[m])
  }

  lemma {:induction false} AnsweredStays<V>(st: Store<V>, ps: seq<Candidate<V>>, p: Candidate<V>, chunk: nat, said: seq<Candidate<V>>, k: Key, m: nat)
    requires Answered(st, ps, chunk, said, k, m)
    ensures Answered(st, ps + [p], chunk, said, k, m)
  {
    var (mid, ids) := Upserts(st, ps, chunk);
    UpsertsSnoc(st, ps, p, chunk);
    NamedStaysUpserted(mid, p, chunk, said, k, ids[m]);
  }

  lemma {:induction false} AnsweredLast<V>(st: Store<V>, ps: seq<Candidate<V>>, p: Candidate<V>, chunk: nat, before: seq<Candidate<V>>)
    requires Chained(st.prefs, before)
    ensures Answered(st, ps + [p], chunk, before + ps + [p], p.key, |ps|)
  {
    UpsertsSnoc(st, ps, p, chunk);
    UpsertsGrow(st, ps, chunk);
    UpsertsKeepChained(st, ps, chunk, before);
    UpsertNamesLast(Upserts(st, ps, chunk).0, p, chunk, before + ps);
  }

  lemma {:induction false} UpsertsName<V>(st: Store<V>, ps: seq<Candidate<V>>, chunk: nat, before: seq<Candidate<V>>, m: nat)
    requires Chained(st.prefs, before) && m < |ps|
    ensures Answered(st, ps, chunk, before + ps[..m + 1], ps[m].key, m)
  {
    var n := |ps| - 1;
    var init, p := ps[..n], ps[n];
    assert ps == init + [p];
    if m == n {
      AnsweredLast(st, init, p, chunk, before);
      assert before + ps[..m + 1] == before + init + [p];
    } else {
      assert init[..m + 1] == ps[..m + 1];
      UpsertsName(st, init, chunk, before, m);
      AnsweredStays(st, init, p, chunk, before + ps[..m + 1], ps[m].key, m);
    }
  }

  lemma {:induction false} NamedStaysUpserted<V>(st: Store<V>, p: Candidate<V>, chunk: nat, said: seq<Candidate<V>>, k: Key, id: nat)
    requires NamedBy(st.prefs, said, k, id)
    ensures NamedBy(Upsert(st, p, chunk).0.prefs, said, k, id)
  {
    UpsertGrows(st, p, chunk);
    NamedStays(st.prefs, Upsert(st, p, chunk).0.prefs, chunk, said, k, id);
  }

  /** Row i is the one that candidate m of chunk c asserted. */
  ghost predicate Names<V>(h: seq<Ingest<V>>, c: nat, m: nat, i: nat)
    requires c < |h| && m < |h[c].candidates|
  {
    NamedBy(Replay(h).prefs, Committed(h[..c]) + h[c].candidates[..m + 1], h[c].candidates[m].key, i)
  }

  ghost predicate IsSource<V>(h: seq<Ingest<V>>, c: nat, i: nat) {
    c < |h| && h[c].committed && exists m :: 0 <= m < |h[c].candidates| && Names(h, c, m, i)
  }

  lemma {:induction false} ReplayGrows<V>(h: seq<Ingest<V>>)
    requires h != []
    ensures GrowsBy(Replay(h[..|h| - 1]).prefs, Replay(h).prefs, |h| - 1)
  {
    var n := |h| - 1;
    var st := Replay(h[..n]);
    if h[n].committed { UpsertsGrow(st.(supersededBy := st.supersededBy + [None]), h[n].candidates, n); }
  }

  /** What a chunk named before the last one, it names still. */
  lemma {:induction false} NamesStays<V>(h: seq<Ingest<V>>, c: nat, m: nat, i: nat)
    requires c < |h| - 1 && m < |h[c].candidates| && h[c].committed
    ensures Names(h, c, m, i) <==> Names(h[..|h| - 1], c, m, i)
  {
    var n := |h| - 1;
    var init, said, k := h[..n], Committed(h[..c]) + h[c].candidates[..m + 1], h[c].candidates[m].key;
    assert init[..c] == h[..c];
    ReplayGrows(h);
    HistoryIsChained(init);
    assert Chain(Replay(init).prefs, k, Rle(Asserted(Committed(init), k)));
    CommittedGrows(init, c, m);
    RunsGrow(said, Committed(init), k);
    NamedStays(Replay(init).prefs, Replay(h).prefs, n, said, k, i);
  }

  /** The candidates up to the m-th of chunk c begin all that are committed. */
  lemma {:induction false} CommittedGrows<V>(h: seq<Ingest<V>>, c: nat, m: nat)
    requires c < |h| && m < |h[c].candidates|
    ensures h[c].committed ==> Committed(h[..c]) + h[c].candidates[..m + 1] <= Committed(h)
  {
    var n := |h| - 1;
    if c < n {
      CommittedGrows(h[..n], c, m);
      assert h[..n][..c] == h[..c];
    }
  }

  /** These runs go on as those: none goes or changes its value. */
  ghost predicate GoOn<V>(r: seq<Span<V>>, r': seq<Span<V>>) {
    |r| <= |r'| && forall q :: 0 <= q < |r| ==> r'[q].value == r[q].value
  }

  lemma {:induction false} GrownGoesOn<V>(r: seq<Span<V>>, v: V)
    ensures GoOn(r, Grown(r, v))
  {
  }

  lemma {:induction false} SaidSnoc<V>(ps: seq<Candidate<V>>, p: Candidate<V>, k: Key)
    ensures Rle(Asserted(ps + [p], k)) == if p.key == k then Grown(Rle(Asserted(ps, k)), p.value) else Rle(Asserted(ps, k))
  {
    FlatMapSnoc(ValueAt<V>(k), ps, p);
    if p.key == k { RleSnoc(Asserted(ps, k), p.value); } else { assert Asserted(ps, k) + [] == Asserted(ps, k); }
  }

  lemma {:induction false} RunsGrow<V>(some: seq<Candidate<V>>, all: seq<Candidate<V>>, k: Key)
    requires some <= all
    ensures GoOn(Rle(Asserted(some, k)), Rle(Asserted(all, k)))
    decreases |all|
  {
    if |some| == |all| {
      assert some == all;
    } else {
      var init, p := all[..|all| - 1], all[|all| - 1];
      assert all == init + [p] && some <= init;
      RunsGrow(some, init, k);
      SaidSnoc(init, p, k);
      GrownGoesOn(Rle(Asserted(init, k)), p.value);
    }
  }

  lemma {:induction false} ProvenanceSnoc<V>(h: seq<Ingest<V>>)
    requires h != []
    ensures var n := |h| - 1;
            var st := Replay(h[..n]);
            Replay(h).provenance == st.provenance +
              if h[n].committed then ProvenanceOf(Upserts(st.(supersededBy := st.supersededBy + [None]), h[n].candidates, n).1, n) else []
    ensures forall p <- Replay(h[..|h| - 1]).provenance :: p.chunk < |h| - 1
  {
    HistoryKeepsMarks(h[..|h| - 1]);
    UpsertsKeepProvenance(h);
  }

  lemma {:induction false} UpsertsKeepProvenance<V>(h: seq<Ingest<V>>)
    requires h != []
    ensures var n := |h| - 1;
            var st := Replay(h[..n]);
            var st' := st.(supersededBy := st.supersededBy + [None]);
            Upserts(st', h[n].candidates, n).0.provenance == st.provenance
  {
    var n := |h| - 1;
    var st := Replay(h[..n]);
    SameProvenance(st.(supersededBy := st.supersededBy + [None]), h[n].candidates, n);
  }

  lemma {:induction false} SameProvenance<V>(st: Store<V>, ps: seq<Candidate<V>>, chunk: nat)
    ensures Upserts(st, ps, chunk).0.provenance == st.provenance
  {
    if ps != [] { SameProvenance(st, ps[..|ps| - 1], chunk); }
  }

  lemma {:induction false} LastChunkNames<V>(h: seq<Ingest<V>>, i: nat)
    requires h != [] && h[|h| - 1].committed
    ensures var n := |h| - 1;
            var st := Replay(h[..n]);
            var ids := Upserts(st.(supersededBy := st.supersededBy + [None]), h[n].candidates, n).1;
            Provenance(i, n) in ProvenanceOf(ids, n) <==> IsSource(h, n, i)
  {
    var n := |h| - 1;
    var st, ps := Replay(h[..n]), h[n].candidates;
    var st' := st.(supersededBy := st.supersededBy + [None]);
    var ids := Upserts(st', ps, n).1;
    HistoryIsChained(h[..n]);
    UpsertsGrow(st', ps, n);
    forall m | 0 <= m < |ps| ensures Names(h, n, m, i) <==> ids[m] == i {
      UpsertsName(st', ps, n, Committed(h[..n]), m);
    }
    forall m | 0 <= m < |ids| ensures Provenance(ids[m], n) in ProvenanceOf(ids, n) {
      assert ProvenanceOf(ids, n)[m] == Provenance(ids[m], n);
    }
    if IsSource(h, n, i) {
      var m :| 0 <= m < |ps| && Names(h, n, m, i);
      assert ids[m] == i;
    }
  }

  lemma {:induction false} IsSourceStays<V>(h: seq<Ingest<V>>, c: nat, i: nat)
    requires c < |h| - 1
    ensures IsSource(h, c, i) <==> IsSource(h[..|h| - 1], c, i)
  {
    var init := h[..|h| - 1];
    assert init[c] == h[c];
    if IsSource(h, c, i) {
      var m :| 0 <= m < |h[c].candidates| && Names(h, c, m, i);
      NamesStays(h, c, m, i);
      assert Names(init, c, m, i);
    }
    if IsSource(init, c, i) {
      var m :| 0 <= m < |h[c].candidates| && Names(init, c, m, i);
      NamesStays(h, c, m, i);
      assert Names(h, c, m, i);
    }
  }

  /** A chunk is a source of a row exactly if it was committed and one of its candidates named that
      row: the one its key had last when the candidate had been asserted. */
  lemma {:induction false} ProvenanceIsSources<V>(h: seq<Ingest<V>>, i: nat, c: nat)
    ensures Provenance(i, c) in Replay(h).provenance <==> IsSource(h, c, i)
  {
    if h != [] {
      var n := |h| - 1;
      ProvenanceSnoc(h);
      ProvenanceIsSources(h[..n], i, c);
      if c < n {
        IsSourceStays(h, c, i);
        NewProvenanceIsOf(h, i, c);
      } else if c == n && h[n].committed {
        LastChunkNames(h, i);
      }
    }
  }

  /** A transaction writes provenance of its own chunk only. */
  lemma {:induction false} NewProvenanceIsOf<V>(h: seq<Ingest<V>>, i: nat, c: nat)
    requires c < |h| - 1
    ensures Provenance(i, c) in Replay(h).provenance <==> Provenance(i, c) in Replay(h[..|h| - 1]).provenance
  {
    ProvenanceSnoc(h);
  }

  /** The row a candidate names has its key and its value. */
  lemma {:induction false} NamedRowCarries<V>(h: seq<Ingest<V>>, c: nat, m: nat, i: nat)
    requires c < |h| && h[c].committed && m < |h[c].candidates| && Names(h, c, m, i)
    ensures var row, p := Replay(h).prefs, h[c].candidates[m];
            i < |row| && row[i].key == p.key && row[i].value == p.value
  {
    var p := h[c].candidates[m];
    var init := Committed(h[..c]) + h[c].candidates[..m];
    var said := init + [p];
    assert said == Committed(h[..c]) + h[c].candidates[..m + 1];
    LastSaidIsLast(init, p);
    CommittedGrows(h, c, m);
    RunsGrow(said, Committed(h), p.key);
    HistoryIsChained(h);
    RowCarriesRun(Replay(h).prefs, p.key, Rle(Asserted(Committed(h), p.key)), RunCount(said, p.key) - 1);
  }

  /** The values asserted for k end with v. */
  ghost predicate LastSaid<V>(ps: seq<Candidate<V>>, k: Key, v: V) {
    var r := Rle(Asserted(ps, k));
    r != [] && r[|r| - 1].value == v
  }

  lemma {:induction false} LastSaidIsLast<V>(ps: seq<Candidate<V>>, p: Candidate<V>)
    ensures LastSaid(ps + [p], p.key, p.value)
  {
    SaidSnoc(ps, p, p.key);
  }

  lemma {:induction false} RowCarriesRun<V>(prefs: seq<Pref<V>>, k: Key, runs: seq<Span<V>>, q: nat)
    requires Chain(prefs, k, runs) && q < |runs|
    ensures var rows := IdsOf(prefs, k);
            |rows| == |runs| && rows[q] < |prefs| && prefs[rows[q]].key == k && prefs[rows[q]].value == runs[q].value
  {
    IdsOfIncrease(prefs, k);
    assert Carries(prefs, IdsOf(prefs, k), runs, q);
  }

  /* ------------------------------- who made a row ------------------------------- */

  lemma {:induction false} ChunkGrows<V>(h: seq<Ingest<V>>, a: nat, b: nat)
    requires a <= b <= |h|
    ensures Committed(h[..a]) <= Committed(h[..b])
  {
    if a < b {
      ChunkGrows(h, a, b - 1);
      assert h[..b][..b - 1] == h[..b - 1];
    }
  }

  /** A key has as many rows as its asserted values make runs. */
  lemma {:induction false} RowsOfKey<V>(h: seq<Ingest<V>>, k: Key)
    ensures var rows := IdsOf(Replay(h).prefs, k);
            |rows| == RunCount(Committed(h), k) && forall q :: 0 <= q < |rows| ==> rows[q] < |Replay(h).prefs|
  {
    HistoryIsChained(h);
    assert Chain(Replay(h).prefs, k, Rle(Asserted(Committed(h), k)));
    IdsOfIncrease(Replay(h).prefs, k);
  }

  /** Chunk e's turn is when run q of a key begins. */
  ghost predicate BeginsIn<V>(h: seq<Ingest<V>>, k: Key, q: nat, e: nat) {
    e < |h| && RunCount(Committed(h[..e]), k) <= q < RunCount(Committed(h[..e + 1]), k)
  }

  /** A row was made by the chunk in whose turn its run began. */
  lemma {:induction false} MadeInTurn<V>(h: seq<Ingest<V>>, k: Key, q: nat)
    requires q < RunCount(Committed(h), k)
    ensures var rows := IdsOf(Replay(h).prefs, k);
            |rows| == RunCount(Committed(h), k) && rows[q] < |Replay(h).prefs|
            && BeginsIn(h, k, q, Replay(h).prefs[rows[q]].createdBy)
  {
    var n := |h| - 1;
    RowsOfKey(h, k);
    RowsOfKey(h[..n], k);
    ReplayGrows(h);
    IdsStay(Replay(h[..n]).prefs, Replay(h).prefs, n, k);
    if q < RunCount(Committed(h[..n]), k) {
      MadeInTurn(h[..n], k, q);
      BeginsEarlier(h, k, q, Replay(h[..n]).prefs[IdsOf(Replay(h[..n]).prefs, k)[q]].createdBy);
    } else {
      assert h[..n + 1] == h;
    }
  }

  lemma {:induction false} BeginsEarlier<V>(h: seq<Ingest<V>>, k: Key, q: nat, e: nat)
    requires h != [] && BeginsIn(h[..|h| - 1], k, q, e)
    ensures BeginsIn(h, k, q, e)
  {
    assert h[..|h| - 1][..e] == h[..e] && h[..|h| - 1][..e + 1] == h[..e + 1];
  }

  /* ------------------------------ who marks a chunk ----------------------------- */

  /** The m-th candidate is the last for its key. */
  ghost predicate FinalWord<V>(ps: seq<Candidate<V>>, m: nat) {
    m < |ps| && forall j :: m < j < |ps| ==> ps[j].key != ps[m].key
  }

  /** Chunk d asserts for some key another value than chunk c, before it, asserted last. */
  ghost predicate Contradicts<V>(h: seq<Ingest<V>>, c: nat, d: nat) {
    && c < d < |h| && h[c].committed && h[d].committed
    && exists m: nat, j: nat :: FinalWord(h[c].candidates, m) && j < |h[d].candidates| && Clashes(h[c].candidates[m], h[d].candidates[j])
  }

  ghost predicate Contradicted<V>(h: seq<Ingest<V>>, c: nat) {
    exists d :: Contradicts(h, c, d)
  }

  predicate Clashes<V(==)>(p: Candidate<V>, p': Candidate<V>) {
    p'.key == p.key && p'.value != p.value
  }

  ghost predicate AnyClash<V>(p: Candidate<V>, ps: seq<Candidate<V>>) {
    exists j :: 0 <= j < |ps| && Clashes(p, ps[j])
  }

  lemma {:induction false} AnyClashSnoc<V>(p: Candidate<V>, ps: seq<Candidate<V>>, x: Candidate<V>)
    ensures AnyClash(p, ps + [x]) <==> AnyClash(p, ps) || Clashes(p, x)
  {
    var all := ps + [x];
    if j :| 0 <= j < |ps| && Clashes(p, ps[j]) { assert Clashes(p, all[j]); }
    assert all[|ps|] == x;
    if j :| 0 <= j < |all| && Clashes(p, all[j]) { assert j < |ps| ==> Clashes(p, ps[j]); }
  }

  lemma {:induction false} RunStep<V>(said: seq<Candidate<V>>, x: Candidate<V>, p: Candidate<V>)
    requires LastSaid(said, p.key, p.value)
    ensures RunCount(said + [x], p.key) == RunCount(said, p.key) + if Clashes(p, x) then 1 else 0
    ensures !Clashes(p, x) ==> LastSaid(said + [x], p.key, p.value)
  {
    SaidSnoc(said, x, p.key);
  }

  /** More is said of a key than its last value exactly when another value is asserted for it. */
  lemma {:induction false} RunAdded<V>(said: seq<Candidate<V>>, more: seq<Candidate<V>>, p: Candidate<V>)
    requires LastSaid(said, p.key, p.value)
    ensures RunCount(said + more, p.key) > RunCount(said, p.key) <==> AnyClash(p, more)
    ensures !AnyClash(p, more) ==> LastSaid(said + more, p.key, p.value)
    ensures RunCount(said + more, p.key) >= RunCount(said, p.key)
  {
    if more == [] {
      assert said + more == said;
    } else {
      var init, x := more[..|more| - 1], more[|more| - 1];
      assert more == init + [x] && said + more == said + init + [x];
      RunAdded(said, init, p);
      AnyClashSnoc(p, init, x);
      if AnyClash(p, init) { RunsGrow(said + init, said + init + [x], p.key); } else { RunStep(said + init, x, p); }
    }
  }

  /** What is committed after the first c + 1 chunks. */
  function Later<V>(h: seq<Ingest<V>>, c: nat): seq<Candidate<V>>
    requires c < |h|
  {
    if c + 1 == |h| then []
    else
      var n := |h| - 1;
      Later(h[..n], c) + if h[n].committed then h[n].candidates else []
  }

  lemma {:induction false} LaterIsRest<V>(h: seq<Ingest<V>>, c: nat)
    requires c < |h|
    ensures Committed(h) == Committed(h[..c + 1]) + Later(h, c)
  {
    var n := |h| - 1;
    if c == n {
      assert h[..c + 1] == h;
    } else {
      LaterIsRest(h[..n], c);
      assert h[..n][..c + 1] == h[..c + 1];
    }
  }

  ghost predicate SaidLater<V>(h: seq<Ingest<V>>, c: nat, d: nat, p: Candidate<V>) {
    c < d < |h| && h[d].committed && AnyClash(p, h[d].candidates)
  }

  lemma {:induction false} LaterClash<V>(h: seq<Ingest<V>>, c: nat, p: Candidate<V>)
    requires c < |h|
    ensures AnyClash(p, Later(h, c)) <==> exists d: nat :: SaidLater(h, c, d, p)
  {
    var n := |h| - 1;
    if c < n {
      LaterClash(h[..n], c, p);
      ClashInEither(p, Later(h[..n], c), if h[n].committed then h[n].candidates else []);
      if d: nat :| SaidLater(h[..n], c, d, p) { assert SaidLater(h, c, d, p); }
      if h[n].committed && AnyClash(p, h[n].candidates) { assert SaidLater(h, c, n, p); }
      if d: nat :| SaidLater(h, c, d, p) { assert d < n ==> SaidLater(h[..n], c, d, p); }
    }
  }

  lemma {:induction false} ClashInEither<V>(p: Candidate<V>, a: seq<Candidate<V>>, b: seq<Candidate<V>>)
    ensures AnyClash(p, a + b) <==> AnyClash(p, a) || AnyClash(p, b)
  {
    if b == [] {
      assert a + b == a;
    } else {
      var init, x := b[..|b| - 1], b[|b| - 1];
      assert b == init + [x] && a + b == a + init + [x];
      ClashInEither(p, a, init);
      AnyClashSnoc(p, init, x);
      AnyClashSnoc(p, a + init, x);
    }
  }

  /** After chunk c its final word on a key is the last value asserted for it. */
  lemma {:induction false} FinalWordIsLast<V>(before: seq<Candidate<V>>, ps: seq<Candidate<V>>, m: nat)
    requires FinalWord(ps, m)
    ensures LastSaid(before + ps, ps[m].key, ps[m].value)
    ensures RunCount(before + ps, ps[m].key) == RunCount(before + ps[..m + 1], ps[m].key)
  {
    var n := |ps| - 1;
    var init, x := ps[..n], ps[n];
    assert ps == init + [x] && before + ps == before + init + [x];
    if m == n {
      LastSaidIsLast(before + init, x);
      assert ps[..m + 1] == ps;
    } else {
      FinalWordIsLast(before, init, m);
      SaidSnoc(before + init, x, ps[m].key);
      assert init[..m + 1] == ps[..m + 1];
    }
  }

  lemma {:induction false} FinalWordExists<V>(ps: seq<Candidate<V>>, m0: nat) returns (m: nat)
    requires m0 < |ps|
    ensures FinalWord(ps, m) && ps[m].key == ps[m0].key
    decreases |ps| - m0
  {
    if FinalWord(ps, m0) {
      m := m0;
    } else {
      var j :| m0 < j < |ps| && ps[j].key == ps[m0].key;
      m := FinalWordExists(ps, j);
    }
  }

  /** A final word of chunk c is contradicted later exactly when its key goes on to another row. */
  lemma {:induction false} ContradictedIff<V>(h: seq<Ingest<V>>, c: nat, m: nat)
    requires c < |h| && h[c].committed && FinalWord(h[c].candidates, m)
    ensures var p := h[c].candidates[m];
            var said := Committed(h[..c]) + h[c].candidates[..m + 1];
            && RunCount(Committed(h[..c + 1]), p.key) == RunCount(said, p.key)
            && (RunCount(Committed(h), p.key) > RunCount(said, p.key) <==> exists d: nat :: SaidLater(h, c, d, p))
  {
    var ps, p := h[c].candidates, h[c].candidates[m];
    assert h[..c + 1][..c] == h[..c];
    assert Committed(h[..c + 1]) == Committed(h[..c]) + ps;
    FinalWordIsLast(Committed(h[..c]), ps, m);
    LaterIsRest(h, c);
    RunAdded(Committed(h[..c + 1]), Later(h, c), p);
    LaterClash(h, c, p);
  }

  /** The row after a named one, in the chain of its key, replaced it. */
  lemma {:induction false} NextReplaces<V>(h: seq<Ingest<V>>, k: Key, q: nat)
    requires 0 < q < RunCount(Committed(h), k)
    ensures var prefs, rows := Replay(h).prefs, IdsOf(Replay(h).prefs, k);
            |rows| == RunCount(Committed(h), k) && rows[q] < |prefs| && prefs[rows[q]].supersedes == Some(rows[q - 1])
  {
    HistoryIsChained(h);
    RowsOfKey(h, k);
    var prefs, runs := Replay(h).prefs, Rle(Asserted(Committed(h), k));
    assert Chain(prefs, k, runs);
    assert Carries(prefs, IdsOf(prefs, k), runs, q);
  }

  /** In a chain a row that replaces another follows it. */
  lemma {:induction false} LinkFollows<V>(prefs: seq<Pref<V>>, j: nat, i: nat, runs: seq<Span<V>>) returns (q: nat)
    requires j < |prefs| && prefs[j].supersedes == Some(i) && Chain(prefs, prefs[j].key, runs)
    ensures var rows := IdsOf(prefs, prefs[j].key);
            0 < q < |rows| && rows[q] == j && rows[q - 1] == i && i < |prefs| && prefs[i].key == prefs[j].key
  {
    var rows := IdsOf(prefs, prefs[j].key);
    IdsOfIncrease(prefs, prefs[j].key);
    q :| 0 <= q < |rows| && rows[q] == j;
    assert Carries(prefs, rows, runs, q);
  }

  /** And no other row did. */
  lemma {:induction false} ReplacedByNext<V>(h: seq<Ingest<V>>, k: Key, q: nat, j: nat)
    requires 0 < q <= |IdsOf(Replay(h).prefs, k)| && j < |Replay(h).prefs|
    requires Replay(h).prefs[j].supersedes == Some(IdsOf(Replay(h).prefs, k)[q - 1])
    ensures q < |IdsOf(Replay(h).prefs, k)| && j == IdsOf(Replay(h).prefs, k)[q]
  {
    var prefs, rows := Replay(h).prefs, IdsOf(Replay(h).prefs, k);
    HistoryIsChained(h);
    var q' := LinkFollows(prefs, j, rows[q - 1], Rle(Asserted(Committed(h), prefs[j].key)));
    IdsOfIncrease(prefs, k);
    assert q' - 1 == q - 1;
  }

  /** A chunk whose row was replaced by another chunk had named that row last for its key. */
  lemma {:induction false} ReplacedWasLast<V>(h: seq<Ingest<V>>, c: nat, m: nat, i: nat, j: nat)
    requires c < |h| && h[c].committed && m < |h[c].candidates| && Names(h, c, m, i)
    requires j < |Replay(h).prefs| && Replay(h).prefs[j].supersedes == Some(i) && Replay(h).prefs[j].createdBy != c
    ensures var k := h[c].candidates[m].key;
            RunCount(Committed(h[..c + 1]), k) < RunCount(Committed(h), k)
  {
    var k, said := h[c].candidates[m].key, Committed(h[..c]) + h[c].candidates[..m + 1];
    var q := RunCount(said, k);
    ReplacedByNext(h, k, q, j);
    RowsOfKey(h, k);
    MadeInTurn(h, k, q);
    var e := Replay(h).prefs[j].createdBy;
    if e < c {
      ChunkGrows(h, e + 1, c);
      RunsGrow(Committed(h[..e + 1]), said, k);
      assert false;
    } else {
      ChunkGrows(h, c + 1, e);
      RunsGrow(Committed(h[..c + 1]), Committed(h[..e]), k);
    }
  }

  lemma {:induction false} OutdatedIsContradicted<V>(h: seq<Ingest<V>>, c: nat)
    requires c < |h| && OutdatedSource(Replay(h), c)
    ensures Contradicted(h, c)
  {
    var prefs := Replay(h).prefs;
    var i: nat :| Provenance(i, c) in Replay(h).provenance && ReplacedByOther(prefs, i, c);
    var j: nat :| j < |prefs| && prefs[j].supersedes == Some(i) && prefs[j].createdBy != c;
    ProvenanceIsSources(h, i, c);
    var m0 :| 0 <= m0 < |h[c].candidates| && Names(h, c, m0, i);
    ReplacedWasLast(h, c, m0, i, j);
    var m := FinalWordExists(h[c].candidates, m0);
    ContradictedIff(h, c, m);
    var d :| SaidLater(h, c, d, h[c].candidates[m]);
    assert Contradicts(h, c, d);
  }

  /** A final word whose key goes on to another row makes its chunk an outdated source. */
  lemma {:induction false} PassedIsOutdated<V>(h: seq<Ingest<V>>, c: nat, m: nat)
    requires c < |h| && h[c].committed && FinalWord(h[c].candidates, m)
    requires RunCount(Committed(h), h[c].candidates[m].key) > RunCount(Committed(h[..c + 1]), h[c].candidates[m].key)
    ensures OutdatedSource(Replay(h), c)
  {
    var k := h[c].candidates[m].key;
    var q := RunCount(Committed(h[..c + 1]), k);
    var rows := IdsOf(Replay(h).prefs, k);
    NamedLast(h, c, m);
    NextReplaces(h, k, q);
    MadeInTurn(h, k, q);
    ProvenanceIsSources(h, rows[q - 1], c);
    assert ReplacedByOther(Replay(h).prefs, rows[q - 1], c);
  }

  /** A final word names the last row its key has after the chunk. */
  lemma {:induction false} NamedLast<V>(h: seq<Ingest<V>>, c: nat, m: nat)
    requires c < |h| && h[c].committed && FinalWord(h[c].candidates, m)
    ensures var k := h[c].candidates[m].key;
            var rows, q := IdsOf(Replay(h).prefs, k), RunCount(Committed(h[..c + 1]), k);
            0 < q <= |rows| && IsSource(h, c, rows[q - 1])
  {
    var p := h[c].candidates[m];
    var init := Committed(h[..c]) + h[c].candidates[..m];
    assert Committed(h[..c]) + h[c].candidates[..m + 1] == init + [p];
    ContradictedIff(h, c, m);
    LastSaidIsLast(init, p);
    RowsOfKey(h, p.key);
    CommittedGrows(h, c, m);
    RunsGrow(init + [p], Committed(h), p.key);
    assert Names(h, c, m, IdsOf(Replay(h).prefs, p.key)[RunCount(init + [p], p.key) - 1]);
  }

  lemma {:induction false} ContradictedIsOutdated<V>(h: seq<Ingest<V>>, c: nat, d: nat)
    requires Contradicts(h, c, d)
    ensures OutdatedSource(Replay(h), c)
  {
    var m: nat, j: nat :| FinalWord(h[c].candidates, m) && j < |h[d].candidates| && Clashes(h[c].candidates[m], h[d].candidates[j]);
    assert SaidLater(h, c, d, h[c].candidates[m]);
    ContradictedIff(h, c, m);
    PassedIsOutdated(h, c, m);
  }

  lemma {:induction false} ContradictsEarlier<V>(h: seq<Ingest<V>>, c: nat, d: nat)
    requires c < d < |h| - 1
    ensures Contradicts(h, c, d) <==> Contradicts(h[..|h| - 1], c, d)
  {
    assert h[..|h| - 1][c] == h[c] && h[..|h| - 1][d] == h[d];
  }

  /** A new mark names the chunk of the transaction that sets it. */
  lemma {:induction false} NewMarksAreNow<V>(st: Store<V>, ps: seq<Candidate<V>>, chunk: nat, c: nat)
    requires c < |st.supersededBy|
    ensures var after := Upserts(st, ps, chunk).0.supersededBy;
            |after| == |st.supersededBy| && (after[c] == st.supersededBy[c] || after[c] == Some(chunk))
  {
    if ps != [] {
      NewMarksAreNow(st, ps[..|ps| - 1], chunk, c);
    }
  }

  lemma {:induction false} MarkedNow<V>(h: seq<Ingest<V>>, c: nat)
    requires c < |h| - 1
    ensures var n := |h| - 1;
            |Replay(h).supersededBy| == n + 1 && |Replay(h[..n]).supersededBy| == n
            && (Replay(h).supersededBy[c] == Replay(h[..n]).supersededBy[c] || Replay(h).supersededBy[c] == Some(n))
  {
    var n := |h| - 1;
    HistoryKeepsMarks(h);
    HistoryKeepsMarks(h[..n]);
    var st := Replay(h[..n]);
    NewMarksAreNow(st.(supersededBy := st.supersededBy + [None]), h[n].candidates, n, c);
  }

  ghost predicate FirstToContradict<V>(h: seq<Ingest<V>>, c: nat, d: nat) {
    Contradicts(h, c, d) && forall e: nat :: e < d ==> !Contradicts(h, c, e)
  }

  lemma {:induction false} MarkIffContradicted<V>(h: seq<Ingest<V>>, c: nat)
    requires c < |h|
    ensures |Replay(h).supersededBy| == |h|
    ensures Replay(h).supersededBy[c].Some? <==> Contradicted(h, c)
  {
    SupersededExactly(h, c);
    if OutdatedSource(Replay(h), c) { OutdatedIsContradicted(h, c); }
    if d: nat :| Contradicts(h, c, d) { ContradictedIsOutdated(h, c, d); }
  }

  /** One more chunk changes nothing for a chunk contradicted before it. */
  lemma {:induction false} FirstStays<V>(h: seq<Ingest<V>>, c: nat, d: nat)
    requires c < |h| - 1 && Contradicted(h[..|h| - 1], c)
    ensures FirstToContradict(h, c, d) <==> FirstToContradict(h[..|h| - 1], c, d)
  {
    var n := |h| - 1;
    forall e: nat | c < e < n ensures Contradicts(h, c, e) <==> Contradicts(h[..n], c, e) {
      ContradictsEarlier(h, c, e);
    }
  }

  /** For one not contradicted before, only the new chunk can be the first. */
  lemma {:induction false} FirstIsNew<V>(h: seq<Ingest<V>>, c: nat, d: nat)
    requires c < |h| - 1 && !Contradicted(h[..|h| - 1], c)
    ensures FirstToContradict(h, c, d) <==> d == |h| - 1 && Contradicted(h, c)
  {
    var n := |h| - 1;
    forall e: nat | c < e < n ensures !Contradicts(h, c, e) { ContradictsEarlier(h, c, e); }
  }

  /** In terms of assertions alone: a chunk is superseded by the first later committed chunk that
      asserts, for some key, another value than the one it asserted last, and by no other. */
  lemma {:induction false} MarkedByFirstContradiction<V>(h: seq<Ingest<V>>, c: nat, d: nat)
    requires c < |h|
    ensures |Replay(h).supersededBy| == |h|
    ensures Replay(h).supersededBy[c] == Some(d) <==> FirstToContradict(h, c, d)
  {
    var n := |h| - 1;
    MarkIffContradicted(h, c);
    if c < n {
      MarkIffContradicted(h[..n], c);
      MarkedNow(h, c);
      if Contradicted(h[..n], c) {
        HistoryKeepsMarks(h);
        MarkedByFirstContradiction(h[..n], c, d);
        FirstStays(h, c, d);
      } else {
        FirstIsNew(h, c, d);
      }
    }
  }
}
