/** The compaction of stale chunks into gists (src/workers/compactor.ts). The clusters of a pass may
    overlap: a chunk is in one for each of its concept tags. */
module Compactor {
  import opened Chunks

  type Table = map<string, Retention>

  datatype Cluster = Cluster(topic: string, chunkIds: seq<string>)

  /** A gist, with its summary, embedding and time span left out. */
  datatype Gist = Gist(topic: string, sourceChunkIds: seq<string>)

  /** What compacting a cluster comes to: a gist and the update that demotes its chunks; an empty
      embedding vector; an exception before the gist is inserted; or one of the update after it. */
  datatype Reply = Vector | NoVector | Throws | UpdateThrows

  /** A cluster selected by a pass, with the reply it would get. */
  datatype Attempt = Attempt(cluster: Cluster, reply: Reply)

  datatype Report = Report(clustersFound: nat, gistsWritten: nat, chunksDemoted: nat)
  datatype Outcome = Done(report: Report) | Thrown

  /* ------------------------------- what a pass covers --------------------------- */

  function IdsOf(c: Cluster): set<string> {
    set i | 0 <= i < |c.chunkIds| :: c.chunkIds[i]
  }

  predicate HasRows(chunks: Table, c: Cluster) {
    exists i :: 0 <= i < |c.chunkIds| && c.chunkIds[i] in chunks
  }

  /** done: the clusters demoted so far. orphan: the one, if any, whose gist was written before its
      update threw. */
  datatype Progress = Progress(done: seq<Cluster>, orphan: seq<Cluster>, stopped: bool)

  function Advance(chunks: Table, p: Progress, a: Attempt): Progress {
    if p.stopped || !HasRows(chunks, a.cluster) then p
    else match a.reply
      case Vector => p.(done := p.done + [a.cluster])
      case NoVector => p
      case Throws => p.(stopped := true)
      case UpdateThrows => p.(stopped := true, orphan := [a.cluster])
  }

  function Processed(chunks: Table, attempts: seq<Attempt>): Progress {
    if attempts == [] then Progress([], [], false)
    else Advance(chunks, Processed(chunks, attempts[..|attempts| - 1]), attempts[|attempts| - 1])
  }

  function Covered(done: seq<Cluster>): set<string> {
    if done == [] then {} else Covered(done[..|done| - 1]) + IdsOf(done[|done| - 1])
  }

  function StandardIds(chunks: Table): set<string> {
    set id | id in chunks && chunks[id] == Standard
  }

  /** The listed chunks that are standard become ephemeral. */
  function Demote(chunks: Table, ids: set<string>): Table {
    map id | id in chunks :: if id in ids && chunks[id] == Standard then Ephemeral else chunks[id]
  }

  function GistsOf(done: seq<Cluster>): seq<Gist> {
    seq(|done|, i requires 0 <= i < |done| => Gist(done[i].topic, done[i].chunkIds))
  }

  /* ------------------------------------- the pass ------------------------------- */

  class Store {
    var chunks: Table
    var gists: seq<Gist>

    constructor (chunks: Table)
      ensures this.chunks == chunks && gists == []
    {
      this.chunks, gists := chunks, [];
    }

    /** What the store holds once a pass over table has got as far as p. */
    ghost predicate Reflects(table: Table, before: seq<Gist>, p: Progress)
      reads this
    {
      chunks == Demote(table, Covered(p.done)) && gists == before + GistsOf(p.done + p.orphan)
    }

    /** Exactly the standard chunks of the processed clusters are demoted, each counted once however
        many clusters it is in; one gist is written for each of them, and for the cluster, if any,
        whose update threw. */
    method CompactCold(attempts: seq<Attempt>) returns (outcome: Outcome)
      modifies this
      ensures var p := Processed(old(chunks), attempts);
              && Reflects(old(chunks), old(gists), p)
              && outcome == if p.stopped then Thrown
                            else Done(Report(|attempts|, |p.done|, |Covered(p.done) * StandardIds(old(chunks))|))
    {
      ghost var table := chunks;
      ghost var p := Progress([], [], false);
      var written, demoted := 0, 0;
      assert Reflects(table, old(gists), p);
      for n := 0 to |attempts|
        invariant p == Processed(table, attempts[..n]) && !p.stopped && p.orphan == []
        invariant Reflects(table, old(gists), p)
        invariant written == |p.done| && demoted == |Covered(p.done) * StandardIds(table)|
      {
        ProcessedNext(table, attempts, n);
        var wrote, rowCount, thrown := CompactCluster(attempts[n], table, old(gists), p);
        p := Advance(table, p, attempts[n]);
        if thrown {
          StoppedStays(table, attempts, n + 1);
          return Thrown;
        }
        written, demoted := written + wrote, demoted + rowCount;
      }
      assert attempts[..|attempts|] == attempts;
      outcome := Done(Report(|attempts|, written, demoted));
    }

    /** The body of the loop: gists written, rows demoted, and whether it threw. */
    method CompactCluster(a: Attempt, ghost table: Table, ghost before: seq<Gist>, ghost p: Progress)
        returns (wrote: nat, rowCount: nat, thrown: bool)
      requires Reflects(table, before, p) && !p.stopped && p.orphan == []
      modifies this
      ensures var q := Advance(table, p, a);
              && Reflects(table, before, q) && thrown == q.stopped && (!thrown ==> q.orphan == [])
              && (!thrown ==> |q.done| == |p.done| + wrote)
              && (!thrown ==> |Covered(q.done) * StandardIds(table)| == |Covered(p.done) * StandardIds(table)| + rowCount)
    {
      wrote, rowCount, thrown := 0, 0, false;
      SameRows(chunks, table, a.cluster);
      if !HasRows(chunks, a.cluster) { return; }
      if a.reply.Throws? { return 0, 0, true; }
      if a.reply.NoVector? { return; }
      GistsSnoc(before, p.done, a.cluster);
      gists := gists + [Gist(a.cluster.topic, a.cluster.chunkIds)];
      wrote := 1;
      if a.reply.UpdateThrows? { return wrote, 0, true; }
      DemoteTwice(table, p.done, a.cluster);
      rowCount := |IdsOf(a.cluster) * StandardIds(chunks)|;
      chunks := Demote(chunks, IdsOf(a.cluster));
    }
  }

  /** Demoting one more cluster demotes the union, and the counts add up. */
  lemma {:induction false} DemoteTwice(chunks: Table, done: seq<Cluster>, c: Cluster)
    ensures Demote(Demote(chunks, Covered(done)), IdsOf(c)) == Demote(chunks, Covered(done + [c]))
    ensures |Covered(done + [c]) * StandardIds(chunks)|
         == |Covered(done) * StandardIds(chunks)| + |IdsOf(c) * StandardIds(Demote(chunks, Covered(done)))|
  {
    var a, b := Covered(done), IdsOf(c);
    assert (done + [c])[..|done|] == done;
    var first, second := a * StandardIds(chunks), b * StandardIds(Demote(chunks, a));
    assert first !! second && first + second == (a + b) * StandardIds(chunks);
  }

  lemma {:induction false} GistsSnoc(before: seq<Gist>, done: seq<Cluster>, c: Cluster)
    ensures before + GistsOf(done + []) + [Gist(c.topic, c.chunkIds)] == before + GistsOf(done + [c])
    ensures GistsOf(done + [c] + []) == GistsOf(done + [c])
  {
    assert done + [] == done && done + [c] + [] == done + [c];
  }

  lemma {:induction false} ProcessedNext(chunks: Table, attempts: seq<Attempt>, n: nat)
    requires n < |attempts|
    ensures Processed(chunks, attempts[..n + 1]) == Advance(chunks, Processed(chunks, attempts[..n]), attempts[n])
  {
    assert attempts[..n + 1][..n] == attempts[..n];
  }

  /** An exception ends the pass. */
  lemma {:induction false} StoppedStays(chunks: Table, attempts: seq<Attempt>, n: nat)
    requires n <= |attempts| && Processed(chunks, attempts[..n]).stopped
    ensures Processed(chunks, attempts) == Processed(chunks, attempts[..n])
    decreases |attempts| - n
  {
    if n < |attempts| {
      ProcessedNext(chunks, attempts, n);
      StoppedStays(chunks, attempts, n + 1);
    } else {
      assert attempts[..n] == attempts;
    }
  }

  lemma {:induction false} SameRows(a: Table, b: Table, c: Cluster)
    requires a.Keys == b.Keys
    ensures HasRows(a, c) == HasRows(b, c)
  {
    assert forall id :: id in a <==> id in b;
  }

  /* ------------------------------------ main results ---------------------------- */

  ghost predicate Listed(gists: seq<Gist>, id: string) {
    exists i :: 0 <= i < |gists| && id in gists[i].sourceChunkIds
  }

  /** Over any pass, completed or not: a chunk is demoted exactly when it was standard and a
      processed cluster's gist lists it, and nothing else changes class; a gist of the pass can list
      a chunk left standard only if it is the gist whose update threw. */
  lemma {:induction false} DemotedAreListed(chunks: Table, attempts: seq<Attempt>, id: string)
    requires id in chunks
    ensures var p := Processed(chunks, attempts);
            var after, gists := Demote(chunks, Covered(p.done)), GistsOf(p.done + p.orphan);
            && after.Keys == chunks.Keys
            && (after[id] != chunks[id] <==> chunks[id] == Standard && Listed(GistsOf(p.done), id))
            && (after[id] != chunks[id] ==> after[id] == Ephemeral && Listed(gists, id))
            && (Listed(gists, id) && after[id] == Standard <==>
                  chunks[id] == Standard && Listed(GistsOf(p.orphan), id) && !Listed(GistsOf(p.done), id))
  {
    var p := Processed(chunks, attempts);
    CoveredIffListed(p.done, id);
    ListedInEither(p.done, p.orphan, id);
  }

  lemma {:induction false} CoveredIffListed(done: seq<Cluster>, id: string)
    ensures id in Covered(done) <==> Listed(GistsOf(done), id)
  {
    CoveredIff(done, id);
    if id in Covered(done) {
      var i :| 0 <= i < |done| && id in done[i].chunkIds;
      assert id in GistsOf(done)[i].sourceChunkIds;
    }
    if Listed(GistsOf(done), id) {
      var i :| 0 <= i < |done| && id in GistsOf(done)[i].sourceChunkIds;
      assert id in done[i].chunkIds;
    }
  }

  lemma {:induction false} ListedInEither(done: seq<Cluster>, orphan: seq<Cluster>, id: string)
    ensures Listed(GistsOf(done + orphan), id) <==> Listed(GistsOf(done), id) || Listed(GistsOf(orphan), id)
  {
    var all := GistsOf(done + orphan);
    forall i | 0 <= i < |done| ensures all[i] == GistsOf(done)[i] {}
    forall i | 0 <= i < |orphan| ensures all[|done| + i] == GistsOf(orphan)[i] {}
    if Listed(all, id) {
      var i :| 0 <= i < |all| && id in all[i].sourceChunkIds;
      if i >= |done| { assert id in GistsOf(orphan)[i - |done|].sourceChunkIds; }
    }
  }

  lemma {:induction false} CoveredIff(done: seq<Cluster>, id: string)
    ensures id in Covered(done) <==> exists i :: 0 <= i < |done| && id in done[i].chunkIds
  {
    if done != [] {
      var n := |done| - 1;
      CoveredIff(done[..n], id);
      assert id in IdsOf(done[n]) <==> id in done[n].chunkIds;
      if id in Covered(done[..n]) {
        var i :| 0 <= i < n && id in done[..n][i].chunkIds;
        assert id in done[i].chunkIds;
      }
      forall i | 0 <= i < n && id in done[i].chunkIds ensures id in Covered(done[..n]) {
        assert id in done[..n][i].chunkIds;
      }
    }
  }

  /** The clusters are those of the selecting query: all their chunks are standard. */
  ghost predicate Selected(chunks: Table, attempts: seq<Attempt>) {
    forall i :: 0 <= i < |attempts| ==> IdsOf(attempts[i].cluster) <= StandardIds(chunks)
  }

  lemma {:induction false} CoveredIsSelected(chunks: Table, attempts: seq<Attempt>)
    requires Selected(chunks, attempts)
    ensures Covered(Processed(chunks, attempts).done) <= StandardIds(chunks)
  {
    if attempts != [] {
      var n := |attempts| - 1;
      CoveredIsSelected(chunks, attempts[..n]);
      var done := Processed(chunks, attempts[..n]).done;
      assert (done + [attempts[n].cluster])[..|done|] == done;
    }
  }

  /** The reported count is the size of the union of the processed clusters. */
  lemma {:induction false} DemotedIsSizeOfUnion(chunks: Table, attempts: seq<Attempt>)
    requires Selected(chunks, attempts)
    ensures var done := Processed(chunks, attempts).done;
            |Covered(done) * StandardIds(chunks)| == |Covered(done)|
  {
    CoveredIsSelected(chunks, attempts);
    var covered := Covered(Processed(chunks, attempts).done);
    assert covered * StandardIds(chunks) == covered;
  }

  /** The table after some passes, and the chunks they demoted in all. */
  function Compacted(chunks: Table, passes: seq<seq<Attempt>>): (Table, nat) {
    if passes == [] then (chunks, 0)
    else
      var (before, demoted) := Compacted(chunks, passes[..|passes| - 1]);
      var ids := Covered(Processed(before, passes[|passes| - 1]).done);
      (Demote(before, ids), demoted + |ids * StandardIds(before)|)
  }

  /** Over any passes, completed or not, the standard chunks left and the chunks demoted make up the
      standard chunks at the start, and all that is not standard stays as it was. */
  lemma {:induction false} CompactionConserves(chunks: Table, passes: seq<seq<Attempt>>)
    ensures var (after, demoted) := Compacted(chunks, passes);
            && |StandardIds(after)| + demoted == |StandardIds(chunks)|
            && after.Keys == chunks.Keys
            && forall id :: id in chunks && chunks[id] != Standard ==> after[id] == chunks[id]
  {
    if passes != [] {
      CompactionConserves(chunks, passes[..|passes| - 1]);
      var (before, _) := Compacted(chunks, passes[..|passes| - 1]);
      var ids := Covered(Processed(before, passes[|passes| - 1]).done);
      var standard := StandardIds(before);
      assert StandardIds(Demote(before, ids)) == standard - ids;
      assert standard == (standard - ids) + ids * standard;
    }
  }
}
