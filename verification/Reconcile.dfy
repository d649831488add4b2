/** Preference reconciliation and the supersede chains it leaves (src/structured/reconcile.ts).
    A fresh UUID is modelled by the position at which its row is inserted; a chunk is named by its
    place in the order in which chunks are ingested and reconciled. */
module Reconcile {
  import opened SeqTools

  datatype Key = Key(scope: string, key: string)

  datatype Candidate<V> = Candidate(key: Key, value: V)

  /** createdBy: the chunk whose transaction inserted the row. */
  datatype Pref<V> = Pref(key: Key, value: V, evidenceCount: nat, invalidated: bool,
                          supersedes: Option<nat>, createdBy: nat)

  /** A provenance row of kind 'preference'. */
  datatype Provenance = Provenance(item: nat, chunk: nat)

  /** supersededBy[c] is column superseded_by of chunk c. */
  datatype Store<V> = Store(prefs: seq<Pref<V>>, provenance: seq<Provenance>, supersededBy: seq<Option<nat>>)

  /* -------------------------------- upsertPreference -------------------------- */

  /** The row `WHERE scope = .. AND key = .. AND invalidated_at IS NULL LIMIT 1` finds. */
  function ActiveIndex<V>(prefs: seq<Pref<V>>, k: Key): (r: Option<nat>)
    ensures r.Some? ==> r.value < |prefs| && prefs[r.value].key == k && !prefs[r.value].invalidated
    ensures r.None? ==> forall i :: 0 <= i < |prefs| ==> !(prefs[i].key == k && !prefs[i].invalidated)
  {
    if prefs == [] then None
    else
      var n := |prefs| - 1;
      var earlier := ActiveIndex(prefs[..n], k);
      if earlier.Some? then earlier
      else if prefs[n].key == k && !prefs[n].invalidated then Some(n) else None
  }

  /** Marks the other chunks the old preference came from, unless already marked. */
  function MarkSuperseded(marks: seq<Option<nat>>, provenance: seq<Provenance>, item: nat, chunk: nat): seq<Option<nat>> {
    seq(|marks|, c requires 0 <= c < |marks| =>
      if Provenance(item, c) in provenance && c != chunk && marks[c].None? then Some(chunk) else marks[c])
  }

  function Upsert<V(==)>(st: Store<V>, p: Candidate<V>, chunk: nat): (Store<V>, nat) {
    var n := |st.prefs|;
    match ActiveIndex(st.prefs, p.key)
    case None => (st.(prefs := st.prefs + [Pref(p.key, p.value, 1, false, None, chunk)]), n)
    case Some(i) =>
      var row := st.prefs[i];
      if row.value == p.value then
        (st.(prefs := st.prefs[i := row.(evidenceCount := row.evidenceCount + 1)]), i)
      else
        (st.(prefs := st.prefs[i := row.(invalidated := true)] + [Pref(p.key, p.value, 1, false, Some(i), chunk)],
             supersededBy := MarkSuperseded(st.supersededBy, st.provenance, i, chunk)), n)
  }

  function Upserts<V(==)>(st: Store<V>, ps: seq<Candidate<V>>, chunk: nat): (Store<V>, seq<nat>) {
    if ps == [] then (st, [])
    else
      var (st', ids) := Upserts(st, ps[..|ps| - 1], chunk);
      var (st'', id) := Upsert(st', ps[|ps| - 1], chunk);
      (st'', ids + [id])
  }

  lemma {:induction false} UpsertsNext<V>(st: Store<V>, ps: seq<Candidate<V>>, chunk: nat, n: nat)
    requires n < |ps|
    ensures var before := Upserts(st, ps[..n], chunk);
            var next := Upsert(before.0, ps[n], chunk);
            Upserts(st, ps[..n + 1], chunk) == (next.0, before.1 + [next.1])
  {
    assert ps[..n + 1][..n] == ps[..n];
  }

  function ProvenanceOf(ids: seq<nat>, chunk: nat): seq<Provenance> {
    seq(|ids|, i requires 0 <= i < |ids| => Provenance(ids[i], chunk))
  }

  /** One committed `reconcile` transaction: every upsert, then one provenance row per id
      returned, deduplicated ids included. */
  function Reconciled<V(==)>(st: Store<V>, ps: seq<Candidate<V>>, chunk: nat): Store<V> {
    var (st', ids) := Upserts(st, ps, chunk);
    st'.(provenance := st'.provenance + ProvenanceOf(ids, chunk))
  }

  class PreferenceStore<V(==)> {
    var prefs: seq<Pref<V>>
    var provenance: seq<Provenance>
    var supersededBy: seq<Option<nat>>

    function View(): Store<V>
      reads this
    {
      Store(prefs, provenance, supersededBy)
    }

    constructor ()
      ensures View() == Store([], [], [])
    {
      prefs, provenance, supersededBy := [], [], [];
    }

    method UpsertPreference(p: Candidate<V>, chunkId: nat) returns (id: nat, deduped: bool)
      modifies `prefs, `supersededBy
      ensures (View(), id) == Upsert(old(View()), p, chunkId)
      ensures |prefs| == |old(prefs)| + if deduped then 0 else 1
    {
      var existing := ActiveIndex(prefs, p.key);
      id := |prefs|;
      var link := None;
      if existing.Some? {
        var i := existing.value;
        var row := prefs[i];
        if row.value == p.value {
          prefs := prefs[i := row.(evidenceCount := row.evidenceCount + 1)];
          return i, true;
        }
        prefs := prefs[i := row.(invalidated := true)];
        supersededBy := MarkSuperseded(supersededBy, provenance, i, chunkId);
        link := Some(i);
      }
      prefs := prefs + [Pref(p.key, p.value, 1, false, link, chunkId)];
      deduped := false;
    }

    /** `reconcile`. failAt: which query throws, if one does, counting the upserts, then the
        provenance inserts, then the commit; the transaction is then rolled back. */
    method Reconcile(preferences: seq<Candidate<V>>, chunkId: nat, failAt: Option<nat>)
        returns (preferenceIds: seq<nat>, dedupCount: nat, committed: bool)
      modifies this
      ensures committed <==> !(failAt.Some? && failAt.value <= 2 * |preferences|)
      ensures committed ==> View() == Reconciled(old(View()), preferences, chunkId)
      ensures committed ==> preferenceIds == Upserts(old(View()), preferences, chunkId).1
      ensures committed ==> |prefs| + dedupCount == |old(prefs)| + |preferences|
      ensures !committed ==> View() == old(View())
    {
      var begin := (prefs, provenance, supersededBy);
      preferenceIds, dedupCount, committed := UpsertAll(preferences, chunkId, failAt);
      if committed {
        var left := if failAt.Some? then Some(failAt.value - |preferences|) else None;
        committed := WriteProvenance(preferenceIds, chunkId, left);
        committed := committed && !(left.Some? && left.value == |preferenceIds|);
      }
      if !committed {
        Rollback(begin);
        preferenceIds, dedupCount := [], 0;
      }
    }

    /** Its loop over the preferences; what a throwing upsert leaves is rolled back by the caller. */
    method UpsertAll(preferences: seq<Candidate<V>>, chunkId: nat, failAt: Option<nat>)
        returns (ids: seq<nat>, dedupCount: nat, done: bool)
      modifies `prefs, `supersededBy
      ensures done <==> !(failAt.Some? && failAt.value < |preferences|)
      ensures done ==> View() == Upserts(old(View()), preferences, chunkId).0
      ensures done ==> ids == Upserts(old(View()), preferences, chunkId).1
      ensures done ==> |ids| == |preferences| && |prefs| + dedupCount == |old(prefs)| + |preferences|
    {
      ghost var st := View();
      ids, dedupCount := [], 0;
      for n := 0 to |preferences|
        invariant failAt.Some? ==> n <= failAt.value
        invariant View() == Upserts(st, preferences[..n], chunkId).0
        invariant ids == Upserts(st, preferences[..n], chunkId).1
        invariant |ids| == n && |prefs| + dedupCount == |old(prefs)| + n
      {
        if failAt.Some? && failAt.value == n { return ids, dedupCount, false; }
        UpsertsNext(st, preferences, chunkId, n);
        var id, deduped := UpsertPreference(preferences[n], chunkId);
        if deduped { dedupCount := dedupCount + 1; }
        ids := ids + [id];
      }
      assert preferences[..|preferences|] == preferences;
      done := true;
    }

    method Rollback(begin: (seq<Pref<V>>, seq<Provenance>, seq<Option<nat>>))
      modifies this
      ensures (prefs, provenance, supersededBy) == begin
    {
      prefs, provenance, supersededBy := begin.0, begin.1, begin.2;
    }

    /** failAt: the insert that throws, if one does. */
    method WriteProvenance(ids: seq<nat>, chunkId: nat, failAt: Option<nat>) returns (written: bool)
      modifies `provenance
      ensures written <==> !(failAt.Some? && failAt.value < |ids|)
      ensures provenance == old(provenance) + ProvenanceOf(if written then ids else ids[..failAt.value], chunkId)
    {
      for n := 0 to |ids|
        invariant failAt.Some? ==> n <= failAt.value
        invariant provenance == old(provenance) + ProvenanceOf(ids[..n], chunkId)
      {
        if failAt.Some? && failAt.value == n { return false; }
        provenance := provenance + [Provenance(ids[n], chunkId)];
      }
      assert ids[..|ids|] == ids;
      written := true;
    }
  }

  /* ------------------------------ ingest histories ---------------------------- */

  /** One ingested chunk: its candidates, and whether its reconcile committed. */
  datatype Ingest<V> = Ingest(candidates: seq<Candidate<V>>, committed: bool)

  /** The tables after ingesting these chunks one by one; the n-th chunk is chunk n. */
  function Replay<V(==)>(h: seq<Ingest<V>>): Store<V> {
    if h == [] then Store([], [], [])
    else
      var n := |h| - 1;
      var st := Replay(h[..n]);
      var st' := st.(supersededBy := st.supersededBy + [None]);
      if h[n].committed then Reconciled(st', h[n].candidates, n) else st'
  }

  /** The values asserted for a key by a list of candidates, in order. */
  function ValueAt<V>(k: Key): Candidate<V> -> seq<V> {
    (p: Candidate<V>) => if p.key == k then [p.value] else []
  }

  function Asserted<V>(ps: seq<Candidate<V>>, k: Key): seq<V> {
    FlatMap(ValueAt<V>(k), ps)
  }

  /** All committed candidates of a history, in order. */
  function Committed<V>(h: seq<Ingest<V>>): seq<Candidate<V>> {
    if h == [] then []
    else
      var n := |h| - 1;
      Committed(h[..n]) + if h[n].committed then h[n].candidates else []
  }

  /* ------------------------------ run-length encoding ------------------------- */

  datatype Span<V> = Span(value: V, count: nat)

  /** One more value: the last run grows, or a new one begins. */
  function Grown<V(==)>(r: seq<Span<V>>, v: V): seq<Span<V>> {
    if r != [] && r[|r| - 1].value == v then r[|r| - 1 := Span(v, r[|r| - 1].count + 1)] else r + [Span(v, 1)]
  }

  function Rle<V(==)>(vs: seq<V>): seq<Span<V>> {
    if vs == [] then [] else Grown(Rle(vs[..|vs| - 1]), vs[|vs| - 1])
  }

  function Total<V>(r: seq<Span<V>>): nat {
    if r == [] then 0 else Total(r[..|r| - 1]) + r[|r| - 1].count
  }

  function Repeat<V>(v: V, n: nat): seq<V> {
    seq(n, _ => v)
  }

  function Expand<V>(r: seq<Span<V>>): seq<V> {
    if r == [] then [] else Expand(r[..|r| - 1]) + Repeat(r[|r| - 1].value, r[|r| - 1].count)
  }

  lemma {:induction false} RepeatOnce<V>(v: V, n: nat)
    ensures Repeat(v, n + 1) == Repeat(v, n) + [v]
  {
  }

  /** Runs are not empty and neighbours differ. */
  ghost predicate Runs<V>(r: seq<Span<V>>) {
    && (forall i :: 0 <= i < |r| ==> r[i].count > 0)
    && (forall i :: 0 < i < |r| ==> r[i - 1].value != r[i].value)
  }

  lemma {:induction false} GrownRuns<V>(r: seq<Span<V>>, v: V)
    requires Runs(r)
    ensures var r' := Grown(r, v); Runs(r') && r' != [] && r'[|r'| - 1].value == v
  {
  }

  lemma {:induction false} GrownExpands<V>(r: seq<Span<V>>, v: V)
    ensures Expand(Grown(r, v)) == Expand(r) + [v] && Total(Grown(r, v)) == Total(r) + 1
  {
    var r' := Grown(r, v);
    if r != [] && r[|r| - 1].value == v {
      var n := |r| - 1;
      assert r'[..n] == r[..n];
      RepeatOnce(v, r[n].count);
      assert Expand(r') == Expand(r[..n]) + (Repeat(v, r[n].count) + [v]);
    } else {
      RepeatOnce(v, 0);
      assert r'[..|r|] == r;
    }
  }

  /** The encoding is lossless and neighbouring runs differ. */
  lemma {:induction false} RleEncodes<V>(vs: seq<V>)
    ensures var r := Rle(vs);
            && Expand(r) == vs && Total(r) == |vs| && Runs(r)
            && (vs != [] ==> r != [] && r[|r| - 1].value == vs[|vs| - 1])
  {
    if vs != [] {
      var init, v := vs[..|vs| - 1], vs[|vs| - 1];
      RleEncodes(init);
      GrownExpands(Rle(init), v);
      GrownRuns(Rle(init), v);
    }
  }

  /* --------------------------- one chain for every key ------------------------ */

  /** The rows of a key, oldest first. */
  function IdsOf<V>(prefs: seq<Pref<V>>, k: Key): seq<nat> {
    if prefs == [] then []
    else
      var n := |prefs| - 1;
      IdsOf(prefs[..n], k) + if prefs[n].key == k then [n] else []
  }

  lemma {:induction false} IdsOfIncrease<V>(prefs: seq<Pref<V>>, k: Key)
    ensures var ids := IdsOf(prefs, k);
            && (forall j :: 0 <= j < |ids| ==> ids[j] < |prefs| && prefs[ids[j]].key == k)
            && (forall i, j :: 0 <= i < j < |ids| ==> ids[i] < ids[j])
            && (forall i :: 0 <= i < |prefs| && prefs[i].key == k ==> i in ids)
  {
    if prefs != [] { IdsOfIncrease(prefs[..|prefs| - 1], k); }
  }

  /** Row id, the j-th of its chain, carries run j, links to the row before it, and is active only
      at the end. */
  ghost predicate Carries<V>(prefs: seq<Pref<V>>, ids: seq<nat>, runs: seq<Span<V>>, j: nat)
    requires j < |ids| == |runs|
  {
    && ids[j] < |prefs|
    && prefs[ids[j]].value == runs[j].value
    && prefs[ids[j]].evidenceCount == runs[j].count
    && prefs[ids[j]].supersedes == (if j == 0 then None else Some(ids[j - 1]))
    && (prefs[ids[j]].invalidated <==> j < |ids| - 1)
  }

  /** The rows of a key are these runs, linked into one chain. */
  ghost predicate Chain<V>(prefs: seq<Pref<V>>, k: Key, runs: seq<Span<V>>) {
    var ids := IdsOf(prefs, k);
    |ids| == |runs| && forall j :: 0 <= j < |ids| ==> Carries(prefs, ids, runs, j)
  }

  ghost predicate Chained<V>(prefs: seq<Pref<V>>, ps: seq<Candidate<V>>) {
    forall k :: Chain(prefs, k, Rle(Asserted(ps, k)))
  }

  lemma {:induction false} IdsOfUpdate<V>(prefs: seq<Pref<V>>, i: nat, row: Pref<V>, k: Key)
    requires i < |prefs| && row.key == prefs[i].key
    ensures IdsOf(prefs[i := row], k) == IdsOf(prefs, k)
  {
    var n := |prefs| - 1;
    if i < n {
      assert prefs[i := row][..n] == prefs[..n][i := row];
      IdsOfUpdate(prefs[..n], i, row, k);
    } else {
      assert prefs[i := row][..n] == prefs[..n];
    }
  }

  lemma {:induction false} IdsOfSnoc<V>(prefs: seq<Pref<V>>, row: Pref<V>, k: Key)
    ensures IdsOf(prefs + [row], k) == IdsOf(prefs, k) + if row.key == k then [|prefs|] else []
  {
    assert (prefs + [row])[..|prefs|] == prefs;
  }

  /** The active row is the last of its chain. */
  lemma {:induction false} ActiveIsLast<V>(prefs: seq<Pref<V>>, k: Key, runs: seq<Span<V>>)
    requires Chain(prefs, k, runs)
    ensures ActiveIndex(prefs, k) == if runs == [] then None else Some(IdsOf(prefs, k)[|runs| - 1])
  {
    var ids := IdsOf(prefs, k);
    IdsOfIncrease(prefs, k);
    var a := ActiveIndex(prefs, k);
    if a.Some? {
      var j :| 0 <= j < |ids| && ids[j] == a.value;
      assert Carries(prefs, ids, runs, j);
    }
    if runs != [] {
      assert Carries(prefs, ids, runs, |ids| - 1);
    }
  }

  lemma {:induction false} RleSnoc<V>(vs: seq<V>, v: V)
    ensures Rle(vs + [v]) == Grown(Rle(vs), v)
  {
    assert (vs + [v])[..|vs|] == vs;
  }

  lemma {:induction false} UpdateOtherRow<V>(prefs: seq<Pref<V>>, i: nat, row: Pref<V>, k: Key, runs: seq<Span<V>>)
    requires i < |prefs| && row.key == prefs[i].key != k && Chain(prefs, k, runs)
    ensures Chain(prefs[i := row], k, runs)
  {
    var ids := IdsOf(prefs, k);
    IdsOfUpdate(prefs, i, row, k);
    IdsOfIncrease(prefs, k);
    var prefs' := prefs[i := row];
    forall j | 0 <= j < |ids| ensures Carries(prefs', ids, runs, j) {
      assert Carries(prefs, ids, runs, j);
    }
  }

  lemma {:induction false} AppendOtherRow<V>(prefs: seq<Pref<V>>, row: Pref<V>, k: Key, runs: seq<Span<V>>)
    requires row.key != k && Chain(prefs, k, runs)
    ensures Chain(prefs + [row], k, runs)
  {
    var ids := IdsOf(prefs, k);
    IdsOfSnoc(prefs, row, k);
    assert ids + [] == ids;
    var prefs' := prefs + [row];
    forall j | 0 <= j < |ids| ensures Carries(prefs', ids, runs, j) {
      assert Carries(prefs, ids, runs, j);
    }
  }

  lemma {:induction false} StartChain<V>(prefs: seq<Pref<V>>, row: Pref<V>)
    requires Chain(prefs, row.key, []) && row.evidenceCount == 1 && !row.invalidated && row.supersedes.None?
    ensures Chain(prefs + [row], row.key, [Span(row.value, 1)])
  {
    IdsOfSnoc(prefs, row, row.key);
    assert IdsOf(prefs + [row], row.key) == [|prefs|];
    assert Carries(prefs + [row], [|prefs|], [Span(row.value, 1)], 0);
  }

  lemma {:induction false} CountOnChain<V>(prefs: seq<Pref<V>>, k: Key, runs: seq<Span<V>>, i: nat)
    requires Chain(prefs, k, runs) && runs != [] && i == IdsOf(prefs, k)[|runs| - 1] && i < |prefs|
    ensures var n := |runs| - 1;
            Chain(prefs[i := prefs[i].(evidenceCount := prefs[i].evidenceCount + 1)], k,
                  runs[n := Span(runs[n].value, runs[n].count + 1)])
  {
    var n, ids := |runs| - 1, IdsOf(prefs, k);
    var row := prefs[i].(evidenceCount := prefs[i].evidenceCount + 1);
    var runs' := runs[n := Span(runs[n].value, runs[n].count + 1)];
    IdsOfUpdate(prefs, i, row, k);
    IdsOfIncrease(prefs, k);
    var prefs' := prefs[i := row];
    forall j | 0 <= j < |ids| ensures Carries(prefs', ids, runs', j) {
      assert Carries(prefs, ids, runs, j);
      assert j < n ==> ids[j] < ids[n];
    }
  }

  lemma {:induction false} ExtendChain<V>(prefs: seq<Pref<V>>, row: Pref<V>, runs: seq<Span<V>>, i: nat)
    requires Chain(prefs, row.key, runs) && runs != [] && row.evidenceCount == 1 && !row.invalidated
    requires i == IdsOf(prefs, row.key)[|runs| - 1] && i < |prefs| && row.supersedes == Some(i)
    ensures Chain(prefs[i := prefs[i].(invalidated := true)] + [row], row.key, runs + [Span(row.value, 1)])
  {
    var n, ids, runs' := |runs|, IdsOf(prefs, row.key), runs + [Span(row.value, 1)];
    var marked := prefs[i := prefs[i].(invalidated := true)];
    IdsOfIncrease(prefs, row.key);
    assert prefs[i].key == row.key;
    IdsOfUpdate(prefs, i, marked[i], row.key);
    IdsOfSnoc(marked, row, row.key);
    var prefs', ids' := marked + [row], ids + [|prefs|];
    forall j | 0 <= j < |ids'| ensures Carries(prefs', ids', runs', j) {
      if j < n {
        assert Carries(prefs, ids, runs, j);
        assert j < n - 1 ==> ids[j] < ids[n - 1];
      }
    }
  }

  lemma {:induction false} UpsertKeepsChain<V>(st: Store<V>, p: Candidate<V>, chunk: nat, runs: seq<Span<V>>)
    requires Chain(st.prefs, p.key, runs)
    ensures Chain(Upsert(st, p, chunk).0.prefs, p.key, Grown(runs, p.value))
  {
    ActiveIsLast(st.prefs, p.key, runs);
    if runs == [] {
      StartChain(st.prefs, Pref(p.key, p.value, 1, false, None, chunk));
    } else {
      var i := IdsOf(st.prefs, p.key)[|runs| - 1];
      assert Carries(st.prefs, IdsOf(st.prefs, p.key), runs, |runs| - 1);
      if st.prefs[i].value == p.value {
        CountOnChain(st.prefs, p.key, runs, i);
      } else {
        ExtendChain(st.prefs, Pref(p.key, p.value, 1, false, Some(i), chunk), runs, i);
      }
    }
  }

  lemma {:induction false} UpsertLeavesOtherChains<V>(st: Store<V>, p: Candidate<V>, chunk: nat, k: Key, runs: seq<Span<V>>)
    requires k != p.key && Chain(st.prefs, k, runs)
    ensures Chain(Upsert(st, p, chunk).0.prefs, k, runs)
  {
    var prefs', n := Upsert(st, p, chunk).0.prefs, |st.prefs|;
    match ActiveIndex(st.prefs, p.key)
    case None => AppendOtherRow(st.prefs, prefs'[n], k, runs);
    case Some(i) =>
      UpdateOtherRow(st.prefs, i, prefs'[i], k, runs);
      if st.prefs[i].value != p.value {
        AppendOtherRow(st.prefs[i := prefs'[i]], prefs'[n], k, runs);
      }
  }

  lemma {:induction false} UpsertKeepsChained<V>(st: Store<V>, p: Candidate<V>, chunk: nat, ps: seq<Candidate<V>>)
    requires Chained(st.prefs, ps)
    ensures Chained(Upsert(st, p, chunk).0.prefs, ps + [p])
  {
    forall k ensures Chain(Upsert(st, p, chunk).0.prefs, k, Rle(Asserted(ps + [p], k))) {
      FlatMapSnoc(ValueAt<V>(k), ps, p);
      if k == p.key {
        UpsertKeepsChain(st, p, chunk, Rle(Asserted(ps, k)));
        RleSnoc(Asserted(ps, k), p.value);
      } else {
        assert Asserted(ps, k) + [] == Asserted(ps, k);
        UpsertLeavesOtherChains(st, p, chunk, k, Rle(Asserted(ps, k)));
      }
    }
  }

  lemma {:induction false} UpsertsKeepChained<V>(st: Store<V>, ps: seq<Candidate<V>>, chunk: nat, before: seq<Candidate<V>>)
    requires Chained(st.prefs, before)
    ensures Chained(Upserts(st, ps, chunk).0.prefs, before + ps)
  {
    if ps == [] {
      assert before + ps == before;
    } else {
      var init, p := ps[..|ps| - 1], ps[|ps| - 1];
      UpsertsKeepChained(st, init, chunk, before);
      UpsertKeepsChained(Upserts(st, init, chunk).0, p, chunk, before + init);
      assert before + ps == before + init + [p];
    }
  }

  /** After any history, the rows of each key are the run-length encoding of the values asserted
      for it, linked into one chain that ends at the only active row. */
  lemma {:induction false} HistoryIsChained<V>(h: seq<Ingest<V>>)
    ensures Chained(Replay(h).prefs, Committed(h))
  {
    if h != [] {
      var n := |h| - 1;
      HistoryIsChained(h[..n]);
      if h[n].committed {
        var st := Replay(h[..n]);
        UpsertsKeepChained(st.(supersededBy := st.supersededBy + [None]), h[n].candidates, n, Committed(h[..n]));
      } else {
        assert Committed(h[..n]) + [] == Committed(h[..n]);
      }
    }
  }

  /** The preference a reader sees: the active row's value, if there is one. */
  function Current<V>(prefs: seq<Pref<V>>, k: Key): Option<V> {
    match ActiveIndex(prefs, k)
    case None => None
    case Some(i) => Some(prefs[i].value)
  }

  ghost predicate ActiveRow<V>(prefs: seq<Pref<V>>, k: Key, i: nat) {
    i < |prefs| && prefs[i].key == k && !prefs[i].invalidated
  }

  function EvidenceOf<V>(prefs: seq<Pref<V>>, ids: seq<nat>): nat
    requires forall j :: 0 <= j < |ids| ==> ids[j] < |prefs|
  {
    if ids == [] then 0 else EvidenceOf(prefs, ids[..|ids| - 1]) + prefs[ids[|ids| - 1]].evidenceCount
  }

  lemma {:induction false} EvidenceIsTotal<V>(prefs: seq<Pref<V>>, ids: seq<nat>, r: seq<Span<V>>)
    requires |ids| == |r| && forall j :: 0 <= j < |ids| ==> ids[j] < |prefs| && prefs[ids[j]].evidenceCount == r[j].count
    ensures EvidenceOf(prefs, ids) == Total(r)
  {
    if ids != [] {
      var n := |ids| - 1;
      EvidenceIsTotal(prefs, ids[..n], r[..n]);
    }
  }

  /** Each row of a key but the oldest supersedes the one before it, which held another value. */
  ghost predicate Linked<V>(prefs: seq<Pref<V>>, ids: seq<nat>) {
    && (forall j :: 0 <= j < |ids| ==> ids[j] < |prefs|)
    && forall j :: 0 < j < |ids| ==> && prefs[ids[j]].supersedes == Some(ids[j - 1])
                                     && prefs[ids[j - 1]].value != prefs[ids[j]].value
  }

  lemma {:induction false} ChainIsLinked<V>(prefs: seq<Pref<V>>, k: Key, vs: seq<V>)
    requires Chain(prefs, k, Rle(vs))
    ensures Linked(prefs, IdsOf(prefs, k)) && EvidenceOf(prefs, IdsOf(prefs, k)) == |vs|
  {
    var ids, runs := IdsOf(prefs, k), Rle(vs);
    RleEncodes(vs);
    forall j | 0 <= j < |ids|
      ensures ids[j] < |prefs| && prefs[ids[j]].value == runs[j].value && prefs[ids[j]].evidenceCount == runs[j].count
      ensures j > 0 ==> prefs[ids[j]].supersedes == Some(ids[j - 1])
    {
      assert Carries(prefs, ids, runs, j);
    }
    EvidenceIsTotal(prefs, ids, runs);
  }

  lemma {:induction false} ActiveIsUnique<V>(prefs: seq<Pref<V>>, k: Key, runs: seq<Span<V>>, i: nat)
    requires Chain(prefs, k, runs) && ActiveRow(prefs, k, i)
    ensures ActiveIndex(prefs, k) == Some(i)
  {
    var ids := IdsOf(prefs, k);
    IdsOfIncrease(prefs, k);
    var j :| 0 <= j < |ids| && ids[j] == i;
    assert Carries(prefs, ids, runs, j);
    ActiveIsLast(prefs, k, runs);
  }

  /** Reconciling is last-write-wins: each key has at most one active row, holding the value last
      asserted; evidence counts add up to the number of assertions; and its rows are linked. */
  lemma {:induction false} LastWriteWins<V>(h: seq<Ingest<V>>, k: Key)
    ensures var prefs, vs := Replay(h).prefs, Asserted(Committed(h), k);
            && Current(prefs, k) == (if vs == [] then None else Some(vs[|vs| - 1]))
            && Linked(prefs, IdsOf(prefs, k))
            && EvidenceOf(prefs, IdsOf(prefs, k)) == |vs|
            && (forall i, j :: ActiveRow(prefs, k, i) && ActiveRow(prefs, k, j) ==> i == j)
  {
    HistoryIsChained(h);
    var prefs, vs := Replay(h).prefs, Asserted(Committed(h), k);
    var ids, runs := IdsOf(prefs, k), Rle(vs);
    assert Chain(prefs, k, runs);
    RleEncodes(vs);
    ActiveIsLast(prefs, k, runs);
    if runs != [] { assert Carries(prefs, ids, runs, |ids| - 1); }
    ChainIsLinked(prefs, k, vs);
    forall i: nat | ActiveRow(prefs, k, i) ensures ActiveIndex(prefs, k) == Some(i) {
      ActiveIsUnique(prefs, k, runs, i);
    }
  }

  /* ----------------------------- superseded chunks ---------------------------- */

  /** Row j replaced row i in a transaction of another chunk than c. */
  ghost predicate ReplacedByOther<V>(prefs: seq<Pref<V>>, i: nat, c: nat) {
    exists j :: 0 <= j < |prefs| && prefs[j].supersedes == Some(i) && prefs[j].createdBy != c
  }

  ghost predicate OutdatedSource<V>(st: Store<V>, c: nat) {
    exists i :: Provenance(i, c) in st.provenance && ReplacedByOther(st.prefs, i, c)
  }

  /** A row links back to an invalidated one, if to any. */
  ghost predicate LinkedBack<V>(prefs: seq<Pref<V>>, j: nat)
    requires j < |prefs|
  {
    match prefs[j].supersedes
    case None => true
    case Some(i) => i < j && prefs[i].invalidated
  }

  /** A mark names a later chunk, and is there exactly when the chunk is an outdated source. */
  ghost predicate MarkedExactly<V>(st: Store<V>, c: nat)
    requires c < |st.supersededBy|
  {
    var mark := st.supersededBy[c];
    (mark.Some? <==> OutdatedSource(st, c)) && (mark.Some? ==> c < mark.value < |st.supersededBy|)
  }

  /** done: how many chunks have been reconciled. */
  ghost predicate MarksInv<V>(st: Store<V>, done: nat) {
    && (forall j :: 0 <= j < |st.prefs| ==> LinkedBack(st.prefs, j))
    && (forall p <- st.provenance :: p.item < |st.prefs| && p.chunk < |st.supersededBy| && p.chunk < done)
    && (forall c :: 0 <= c < |st.supersededBy| ==> MarkedExactly(st, c))
  }

  /** No mark is overwritten. */
  ghost predicate KeepsMarks(marks: seq<Option<nat>>, marks': seq<Option<nat>>) {
    |marks| <= |marks'| && forall c :: 0 <= c < |marks| && marks[c].Some? ==> marks'[c] == marks[c]
  }

  lemma {:induction false} UpsertKeepsMarks<V>(st: Store<V>, p: Candidate<V>, now: nat)
    requires MarksInv(st, now) && now < |st.supersededBy|
    ensures var (st', id) := Upsert(st, p, now);
            && MarksInv(st', now) && id < |st'.prefs| && !st'.prefs[id].invalidated
            && st'.provenance == st.provenance && |st'.supersededBy| == |st.supersededBy|
            && |st.prefs| <= |st'.prefs|
            && KeepsMarks(st.supersededBy, st'.supersededBy)
            && (forall i :: ReplacedByOther(st'.prefs, i, now) ==> ReplacedByOther(st.prefs, i, now))
  {
    var st' := Upsert(st, p, now).0;
    var a := ActiveIndex(st.prefs, p.key);
    if a.Some? && st.prefs[a.value].value != p.value {
      var n := |st.prefs|;
      assert st'.prefs[n].supersedes == Some(a.value) && st'.prefs[n].createdBy == now;
      forall j | 0 <= j < |st'.prefs| ensures LinkedBack(st'.prefs, j) {
        assert j < n ==> LinkedBack(st.prefs, j);
      }
      forall c | 0 <= c < |st.supersededBy| ensures MarkedExactly(st', c) {
        assert MarkedExactly(st, c);
        UpsertMarks(st, st', a.value, now, c);
      }
    } else {
      forall i, c ensures ReplacedByOther(st'.prefs, i, c) <==> ReplacedByOther(st.prefs, i, c) {
        SameLinks(st.prefs, st'.prefs, i, c);
      }
      forall c | 0 <= c < |st.supersededBy| ensures MarkedExactly(st', c) {
        assert MarkedExactly(st, c);
        assert OutdatedSource(st', c) <==> OutdatedSource(st, c);
      }
      forall j | 0 <= j < |st'.prefs| ensures LinkedBack(st'.prefs, j) {
        assert j < |st.prefs| ==> LinkedBack(st.prefs, j);
      }
    }
  }

  /** Rows differing only in counts, plus perhaps a new unlinked row, replace the same rows. */
  lemma {:induction false} SameLinks<V>(prefs: seq<Pref<V>>, prefs': seq<Pref<V>>, i: nat, c: nat)
    requires |prefs| <= |prefs'|
    requires forall j :: 0 <= j < |prefs| ==> prefs'[j].supersedes == prefs[j].supersedes && prefs'[j].createdBy == prefs[j].createdBy
    requires forall j :: |prefs| <= j < |prefs'| ==> prefs'[j].supersedes.None?
    ensures ReplacedByOther(prefs', i, c) <==> ReplacedByOther(prefs, i, c)
  {
    if ReplacedByOther(prefs, i, c) {
      var j :| 0 <= j < |prefs| && prefs[j].supersedes == Some(i) && prefs[j].createdBy != c;
      assert prefs'[j].supersedes == Some(i);
    }
  }

  /** Replacing row a marks exactly the sources of a that were not marked before. */
  lemma {:induction false} UpsertMarks<V>(st: Store<V>, st': Store<V>, a: nat, now: nat, c: nat)
    requires MarksInv(st, now) && c < |st.supersededBy| && a < |st.prefs| && now < |st.supersededBy|
    requires st'.provenance == st.provenance
    requires st'.supersededBy == MarkSuperseded(st.supersededBy, st.provenance, a, now)
    requires |st'.prefs| == |st.prefs| + 1
    requires forall j :: 0 <= j < |st.prefs| ==> st'.prefs[j].supersedes == st.prefs[j].supersedes && st'.prefs[j].createdBy == st.prefs[j].createdBy
    requires st'.prefs[|st.prefs|].supersedes == Some(a) && st'.prefs[|st.prefs|].createdBy == now
    ensures st'.supersededBy[c].Some? <==> OutdatedSource(st', c)
  {
    assert MarkedExactly(st, c);
    var n := |st.prefs|;
    forall i ensures ReplacedByOther(st'.prefs, i, c) <==> ReplacedByOther(st.prefs, i, c) || (i == a && c != now) {
      if ReplacedByOther(st.prefs, i, c) {
        var j :| 0 <= j < n && st.prefs[j].supersedes == Some(i) && st.prefs[j].createdBy != c;
        assert st'.prefs[j].supersedes == Some(i);
      }
      if i == a && c != now { assert st'.prefs[n].supersedes == Some(i); }
    }
    if OutdatedSource(st', c) {
      var i :| Provenance(i, c) in st'.provenance && ReplacedByOther(st'.prefs, i, c);
      assert ReplacedByOther(st.prefs, i, c) ==> OutdatedSource(st, c);
    }
    if OutdatedSource(st, c) {
      var i :| Provenance(i, c) in st.provenance && ReplacedByOther(st.prefs, i, c);
      assert ReplacedByOther(st'.prefs, i, c);
    }
  }

  lemma {:induction false} UpsertsKeepMarks<V>(st: Store<V>, ps: seq<Candidate<V>>, now: nat)
    requires MarksInv(st, now) && now < |st.supersededBy|
    ensures var (st', ids) := Upserts(st, ps, now);
            && MarksInv(st', now) && st'.provenance == st.provenance && |st'.supersededBy| == |st.supersededBy|
            && |st.prefs| <= |st'.prefs|
            && KeepsMarks(st.supersededBy, st'.supersededBy)
            && (forall id <- ids :: id < |st'.prefs| && !ReplacedByOther(st'.prefs, id, now))
  {
    if ps != [] {
      var init, p := ps[..|ps| - 1], ps[|ps| - 1];
      UpsertsKeepMarks(st, init, now);
      var mid := Upserts(st, init, now).0;
      UpsertKeepsMarks(mid, p, now);
      var id := Upsert(mid, p, now).1;
      var st' := Upsert(mid, p, now).0;
      assert !ReplacedByOther(st'.prefs, id, now) by {
        assert forall j :: 0 <= j < |st'.prefs| && st'.prefs[j].supersedes == Some(id) ==> !LinkedBack(st'.prefs, j);
      }
    }
  }

  lemma {:induction false} ReconcileKeepsMarks<V>(st: Store<V>, ps: seq<Candidate<V>>, now: nat)
    requires MarksInv(st, now) && now + 1 == |st.supersededBy|
    ensures var st' := Reconciled(st, ps, now);
            && MarksInv(st', now + 1) && |st'.supersededBy| == |st.supersededBy|
            && KeepsMarks(st.supersededBy, st'.supersededBy)
  {
    UpsertsKeepMarks(st, ps, now);
    var mid, ids, st' := Upserts(st, ps, now).0, Upserts(st, ps, now).1, Reconciled(st, ps, now);
    assert forall p <- ProvenanceOf(ids, now) :: p.chunk == now && p.item in ids;
    forall c | 0 <= c < |mid.supersededBy| ensures MarkedExactly(st', c) {
      assert MarkedExactly(mid, c);
      if OutdatedSource(mid, c) {
        var i :| Provenance(i, c) in mid.provenance && ReplacedByOther(mid.prefs, i, c);
        assert Provenance(i, c) in st'.provenance;
      }
      if OutdatedSource(st', c) {
        var i :| Provenance(i, c) in st'.provenance && ReplacedByOther(st'.prefs, i, c);
        assert Provenance(i, c) in mid.provenance || (c == now && i in ids);
      }
    }
  }

  lemma {:induction false} HistoryKeepsMarks<V>(h: seq<Ingest<V>>)
    ensures MarksInv(Replay(h), |h|) && |Replay(h).supersededBy| == |h|
    ensures h != [] ==> KeepsMarks(Replay(h[..|h| - 1]).supersededBy, Replay(h).supersededBy)
  {
    if h != [] {
      var n := |h| - 1;
      HistoryKeepsMarks(h[..n]);
      var st := Replay(h[..n]);
      var st' := st.(supersededBy := st.supersededBy + [None]);
      assert !OutdatedSource(st', n);
      forall c | 0 <= c < n ensures MarkedExactly(st', c) {
        assert MarkedExactly(st, c);
        assert OutdatedSource(st', c) <==> OutdatedSource(st, c);
      }
      assert MarksInv(st', n);
      if h[n].committed { ReconcileKeepsMarks(st', h[n].candidates, n); }
    }
  }

  /** In any history: a chunk is marked superseded exactly when a preference it is a source of was
      replaced by another chunk's transaction; the mark names a later chunk, so the graph of marks
      is acyclic; and once written it never changes. */
  lemma {:induction false} SupersededExactly<V>(h: seq<Ingest<V>>, c: nat)
    requires c < |h|
    ensures |Replay(h).supersededBy| == |h|
    ensures var mark := Replay(h).supersededBy[c];
            && (mark.Some? <==> OutdatedSource(Replay(h), c))
            && (mark.Some? ==> c < mark.value < |h|)
  {
    HistoryKeepsMarks(h);
    assert MarkedExactly(Replay(h), c);
  }

  lemma {:induction false} MarksAreWriteOnce<V>(h: seq<Ingest<V>>, m: nat, c: nat)
    requires c < m <= |h| && |Replay(h[..m]).supersededBy| == m && Replay(h[..m]).supersededBy[c].Some?
    ensures |Replay(h).supersededBy| == |h| && Replay(h).supersededBy[c] == Replay(h[..m]).supersededBy[c]
    decreases |h| - m
  {
    HistoryKeepsMarks(h);
    if m < |h| {
      HistoryKeepsMarks(h[..m + 1]);
      assert h[..m + 1][..m] == h[..m];
      MarksAreWriteOnce(h, m + 1, c);
    } else {
      assert h[..m] == h;
    }
  }
}
