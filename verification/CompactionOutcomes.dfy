/** What a compaction pass does, told from the replies alone (src/workers/compactor.ts). */
module CompactionOutcomes {
  import opened Chunks
  import opened Compactor

  /** Some chunk of the i-th cluster still exists. */
  ghost predicate Exists(chunks: Table, attempts: seq<Attempt>, i: int) {
    0 <= i < |attempts| && exists id :: id in attempts[i].cluster.chunkIds && id in chunks
  }

  /** The i-th cluster is the first existing one at which the pass throws. */
  ghost predicate Breaks(chunks: Table, attempts: seq<Attempt>, i: int) {
    Exists(chunks, attempts, i) && (attempts[i].reply == Throws || attempts[i].reply == UpdateThrows)
  }

  ghost predicate Reached(chunks: Table, attempts: seq<Attempt>, i: int) {
    forall j :: 0 <= j < i ==> !Breaks(chunks, attempts, j)
  }

  ghost predicate Demotes(chunks: Table, attempts: seq<Attempt>, i: int) {
    Exists(chunks, attempts, i) && Reached(chunks, attempts, i) && attempts[i].reply == Vector
  }

  /** A gist is inserted before its chunks are demoted, so also if that throws. */
  ghost predicate Writes(chunks: Table, attempts: seq<Attempt>, i: int) {
    && Exists(chunks, attempts, i) && Reached(chunks, attempts, i)
    && (attempts[i].reply == Vector || attempts[i].reply == UpdateThrows)
  }

  lemma {:induction false} ExistsIffHasRows(chunks: Table, attempts: seq<Attempt>, i: nat)
    requires i < |attempts|
    ensures Exists(chunks, attempts, i) <==> HasRows(chunks, attempts[i].cluster)
  {
    var ids := attempts[i].cluster.chunkIds;
    if Exists(chunks, attempts, i) {
      var id :| id in ids && id in chunks;
      var k :| 0 <= k < |ids| && ids[k] == id;
      assert ids[k] in chunks;
    }
    if HasRows(chunks, attempts[i].cluster) {
      var k :| 0 <= k < |ids| && ids[k] in chunks;
      assert ids[k] in ids;
    }
  }

  /** A pass throws exactly when some existing cluster's summary, embedding, insert or update does. */
  lemma {:induction false} ThrowsIff(chunks: Table, attempts: seq<Attempt>, n: nat)
    requires n <= |attempts|
    ensures Processed(chunks, attempts[..n]).stopped <==> exists i :: i < n && Breaks(chunks, attempts, i)
    ensures !Processed(chunks, attempts[..n]).stopped ==> Processed(chunks, attempts[..n]).orphan == []
  {
    if n > 0 {
      ThrowsIff(chunks, attempts, n - 1);
      ProcessedNext(chunks, attempts, n - 1);
      ExistsIffHasRows(chunks, attempts, n - 1);
      if !Processed(chunks, attempts[..n - 1]).stopped {
        assert Processed(chunks, attempts[..n]).stopped <==> Breaks(chunks, attempts, n - 1);
      }
    }
  }

  lemma {:induction false} ReachedIff(chunks: Table, attempts: seq<Attempt>, n: nat)
    requires n <= |attempts|
    ensures Reached(chunks, attempts, n) <==> !Processed(chunks, attempts[..n]).stopped
  {
    ThrowsIff(chunks, attempts, n);
    if i :| i < n && Breaks(chunks, attempts, i) { assert Exists(chunks, attempts, i); }
  }

  /** The gists inserted for the first n clusters, in order. */
  ghost function Gists(chunks: Table, attempts: seq<Attempt>, n: nat): seq<Gist>
    requires n <= |attempts|
  {
    if n == 0 then []
    else
      var c := attempts[n - 1].cluster;
      Gists(chunks, attempts, n - 1) + if Writes(chunks, attempts, n - 1) then [Gist(c.topic, c.chunkIds)] else []
  }

  lemma {:induction false} GistsGrow(done: seq<Cluster>, c: Cluster)
    ensures GistsOf(done + [c]) == GistsOf(done) + [Gist(c.topic, c.chunkIds)]
    ensures done + [] == done
  {
  }

  lemma {:induction false} AdvanceInserts(chunks: Table, p: Progress, a: Attempt)
    requires !p.stopped ==> p.orphan == []
    ensures var q := Advance(chunks, p, a);
            var writes := !p.stopped && HasRows(chunks, a.cluster) && (a.reply == Vector || a.reply == UpdateThrows);
            GistsOf(q.done + q.orphan) ==
              GistsOf(p.done + p.orphan) + if writes then [Gist(a.cluster.topic, a.cluster.chunkIds)] else []
  {
    GistsGrow(p.done, a.cluster);
    GistsGrow(p.done + [a.cluster], a.cluster);
  }

  /** A pass inserts a gist for each existing cluster it reaches whose vector is not empty, also for
      the one whose update throws. Each lists all chunks of its cluster. */
  lemma {:induction false} GistsAreInserted(chunks: Table, attempts: seq<Attempt>, n: nat)
    requires n <= |attempts|
    ensures var p := Processed(chunks, attempts[..n]); GistsOf(p.done + p.orphan) == Gists(chunks, attempts, n)
  {
    if n > 0 {
      var p := Processed(chunks, attempts[..n - 1]);
      GistsAreInserted(chunks, attempts, n - 1);
      ProcessedNext(chunks, attempts, n - 1);
      ExistsIffHasRows(chunks, attempts, n - 1);
      ReachedIff(chunks, attempts, n - 1);
      ThrowsIff(chunks, attempts, n - 1);
      AdvanceInserts(chunks, p, attempts[n - 1]);
    }
  }

  lemma {:induction false} CoveredNext(done: seq<Cluster>, c: Cluster, id: string)
    ensures id in Covered(done + [c]) <==> id in Covered(done) || id in c.chunkIds
  {
    assert (done + [c])[..|done|] == done;
    assert id in IdsOf(c) <==> id in c.chunkIds;
  }

  lemma {:induction false} CoveredIffDemotes(chunks: Table, attempts: seq<Attempt>, n: nat, id: string)
    requires n <= |attempts|
    ensures id in Covered(Processed(chunks, attempts[..n]).done) <==>
              exists i :: i < n && Demotes(chunks, attempts, i) && id in attempts[i].cluster.chunkIds
  {
    if n > 0 {
      var p := Processed(chunks, attempts[..n - 1]);
      CoveredIffDemotes(chunks, attempts, n - 1, id);
      ProcessedNext(chunks, attempts, n - 1);
      ExistsIffHasRows(chunks, attempts, n - 1);
      ReachedIff(chunks, attempts, n - 1);
      CoveredNext(p.done, attempts[n - 1].cluster, id);
    }
  }

  /** Over any pass, thrown or not: a chunk leaves its class exactly when it was standard and is in some
      cluster with a vector and a successful update, with no exception at an earlier existing one. It
      becomes ephemeral. */
  lemma {:induction false} DemotedIff(chunks: Table, attempts: seq<Attempt>, id: string)
    requires id in chunks
    ensures var after := Demote(chunks, Covered(Processed(chunks, attempts).done));
            && id in after
            && (after[id] != chunks[id] <==>
                  chunks[id] == Standard && exists i :: Demotes(chunks, attempts, i) && id in attempts[i].cluster.chunkIds)
            && (after[id] != chunks[id] ==> after[id] == Ephemeral)
  {
    assert attempts[..|attempts|] == attempts;
    CoveredIffDemotes(chunks, attempts, |attempts|, id);
  }
}
