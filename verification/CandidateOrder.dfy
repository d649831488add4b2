/** In which order candidates of equal score stand, which decides between them in the reranker
    (src/recall/routes.ts, src/recall/router.ts). */
module CandidateOrder {
  import opened SeqTools
  import opened Ranking
  import opened RecallTiers
  import RecallContents

  /** Where a chunk is first found; past the end if it is not. */
  function FirstAt(es: seq<Entry>, id: string): nat {
    if es == [] || es[0].row.chunkId == id then 0 else 1 + FirstAt(es[1..], id)
  }

  lemma {:induction false} FirstAtSnoc(es: seq<Entry>, e: Entry, id: string)
    ensures FirstAt(es, id) <= |es|
    ensures FirstAt(es, id) < |es| ==> FirstAt(es + [e], id) == FirstAt(es, id)
    ensures FirstAt(es, id) == |es| ==> FirstAt(es + [e], id) == if e.row.chunkId == id then |es| else |es| + 1
  {
    if es == [] {
      assert [] + [e] == [e] && [e][1..] == [];
    } else {
      FirstAtSnoc(es[1..], e, id);
      assert (es + [e])[1..] == es[1..] + [e];
    }
  }

  /** The candidates stand in the order in which their chunks were first found. */
  ghost predicate AsFound(cs: seq<Merged>, es: seq<Entry>) {
    forall i, j :: 0 <= i < j < |cs| ==> FirstAt(es, cs[i].chunkId) < FirstAt(es, cs[j].chunkId)
  }

  ghost predicate AllFound(cs: seq<Merged>, es: seq<Entry>) {
    forall i :: 0 <= i < |cs| ==> FirstAt(es, cs[i].chunkId) < |es|
  }

  lemma {:induction false} AbsorbKeepsOrder(cs: seq<Merged>, es: seq<Entry>, e: Entry)
    requires AsFound(cs, es) && AllFound(cs, es)
    requires forall c <- cs :: FirstAt(es, c.chunkId) < |es|
    requires FirstAt(es, e.row.chunkId) < |es| ==> exists c <- cs :: c.chunkId == e.row.chunkId
    ensures AsFound(Absorb(cs, e), es + [e]) && AllFound(Absorb(cs, e), es + [e])
  {
    var after := Absorb(cs, e);
    FirstAtSnoc(es, e, e.row.chunkId);
    forall i | 0 <= i < |cs| ensures after[i].chunkId == cs[i].chunkId && FirstAt(es + [e], cs[i].chunkId) == FirstAt(es, cs[i].chunkId) {
      FirstAtSnoc(es, e, cs[i].chunkId);
    }
  }

  lemma {:induction false} MentionedIsFound(es: seq<Entry>, id: string)
    ensures Mentions(es, id) <==> FirstAt(es, id) < |es|
  {
    if es != [] {
      MentionedIsFound(es[1..], id);
      assert forall e :: e in es <==> e == es[0] || e in es[1..];
    }
  }

  lemma {:induction false} AbsorbedInOrder(es: seq<Entry>)
    ensures AsFound(AbsorbAll(es), es) && AllFound(AbsorbAll(es), es)
  {
    if es != [] {
      var init, e := es[..|es| - 1], es[|es| - 1];
      assert es == init + [e];
      AbsorbedInOrder(init);
      AbsorbAllSummarises(init);
      MentionedIsFound(init, e.row.chunkId);
      if x :| x in init && x.row.chunkId == e.row.chunkId { assert Summary(init, x.row.chunkId) in AbsorbAll(init); }
      AbsorbKeepsOrder(AbsorbAll(init), init, e);
    }
  }

  /** Candidates of equal score stand in the order in which their chunks were first found. */
  ghost predicate TiesAsFound(cs: seq<Merged>, es: seq<Entry>) {
    forall i, j :: 0 <= i < j < |cs| && cs[i].combinedScore == cs[j].combinedScore ==>
      FirstAt(es, cs[i].chunkId) < FirstAt(es, cs[j].chunkId)
  }

  lemma {:induction false} InsertedFrom(c: Merged, cs: seq<Merged>)
    ensures forall d <- InsertByScore(c, cs) :: d == c || d in cs
  {
    if cs != [] { InsertedFrom(c, cs[1..]); }
  }

  lemma {:induction false} InsertKeepsTies(c: Merged, cs: seq<Merged>, es: seq<Entry>)
    requires Descending(cs) && TiesAsFound(cs, es)
    requires forall d <- cs :: FirstAt(es, c.chunkId) < FirstAt(es, d.chunkId)
    ensures TiesAsFound(InsertByScore(c, cs), es)
  {
    if cs != [] && cs[0].combinedScore > c.combinedScore {
      var rest := InsertByScore(c, cs[1..]);
      InsertKeepsTies(c, cs[1..], es);
      InsertedFrom(c, cs[1..]);
      forall j | 0 <= j < |rest| && rest[j].combinedScore == cs[0].combinedScore
        ensures FirstAt(es, cs[0].chunkId) < FirstAt(es, rest[j].chunkId)
      {
        assert rest[j] in rest && rest[j] in cs[1..];
        var i :| 0 <= i < |cs[1..]| && cs[1..][i] == rest[j];
        assert cs[i + 1] == rest[j];
      }
    }
  }

  lemma {:induction false} SortKeepsTies(cs: seq<Merged>, es: seq<Entry>)
    requires AsFound(cs, es)
    ensures TiesAsFound(SortByScore(cs), es)
  {
    if cs != [] {
      var sorted := SortByScore(cs[1..]);
      SortKeepsTies(cs[1..], es);
      SortPermutes(cs[1..]);
      forall d | d in sorted ensures FirstAt(es, cs[0].chunkId) < FirstAt(es, d.chunkId) {
        assert d in multiset(sorted) && d in multiset(cs[1..]);
        var i :| 0 <= i < |cs[1..]| && cs[1..][i] == d;
        assert cs[i + 1] == d;
      }
      InsertKeepsTies(cs[0], sorted, es);
    }
  }

  /** A merge puts the greatest score first and, among equals, the chunk found first. */
  lemma {:induction false} MergeKeepsTies(rs: seq<RouteResult>, w: Weights)
    ensures Descending(MergeOf(rs, w)) && TiesAsFound(MergeOf(rs, w), Entries(rs, w))
  {
    var es := Entries(rs, w);
    AbsorbedInOrder(es);
    SortKeepsTies(AbsorbAll(es), es);
    SortPermutes(AbsorbAll(es));
  }

  /* ------------------------------ the second stage ------------------------------ */

  function Ids(cs: seq<Merged>): seq<string> {
    seq(|cs|, i requires 0 <= i < |cs| => cs[i].chunkId)
  }

  /** The ids that are not among these, in order. */
  function Others(ids: seq<string>, these: seq<string>): seq<string> {
    if ids == [] then []
    else
      var n := |ids| - 1;
      Others(ids[..n], these) + if ids[n] in these then [] else [ids[n]]
  }

  lemma {:induction false} OthersAmong(ids: seq<string>, these: seq<string>)
    ensures forall id :: id in Others(ids, these) <==> id in ids && id !in these
  {
    if ids != [] {
      var n := |ids| - 1;
      OthersAmong(ids[..n], these);
      assert forall id :: id in ids <==> id in ids[..n] || id == ids[n];
    }
  }

  lemma {:induction false} FoldInOrder(all: seq<Merged>, c: Merged)
    ensures Ids(FoldIn(all, c)) == Ids(all) + if c.chunkId in Ids(all) then [] else [c.chunkId]
  {
    var i := IndexOfId(all, c.chunkId);
    if i.Some? {
      assert Ids(all)[i.value] == c.chunkId;
      assert Ids(all) + [] == Ids(all);
    } else {
      forall j | 0 <= j < |all| ensures Ids(all)[j] != c.chunkId { assert all[j] in all; }
    }
  }

  lemma {:induction false} FoldKeepsOrder(all: seq<Merged>, cs: seq<Merged>)
    requires UniqueIds(cs)
    ensures Ids(FoldAll(all, cs)) == Ids(all) + Others(Ids(cs), Ids(all))
  {
    if cs == [] {
      assert Ids(all) + [] == Ids(all);
    } else {
      var n := |cs| - 1;
      var init, c := cs[..n], cs[n];
      FoldKeepsOrder(all, init);
      FoldInOrder(FoldAll(all, init), c);
      assert Ids(cs)[..n] == Ids(init) && Ids(cs)[n] == c.chunkId;
      OthersAmong(Ids(init), Ids(all));
      forall i | 0 <= i < n ensures Ids(init)[i] != c.chunkId {}
      assert Ids(all) + Others(Ids(init), Ids(all)) + (if c.chunkId in Ids(all) then [] else [c.chunkId])
          == Ids(all) + (Others(Ids(init), Ids(all)) + if c.chunkId in Ids(all) then [] else [c.chunkId]);
    }
  }

  lemma {:induction false} PenaltyKeepsOrder(chunks: map<string, Chunk>, cs: seq<Merged>)
    ensures Ids(PenaliseAll(chunks, cs)) == Ids(cs)
  {
    forall i | 0 <= i < |cs| ensures PenaliseAll(chunks, cs)[i].chunkId == cs[i].chunkId {
      RecallContents.PenaltyKeepsIds(chunks, cs, "");
    }
  }

  /** What a fresh recall reranks stands in this order: the structured candidates as merged, then, if the
      semantic routes run, their other candidates as merged. Penalties move nothing. */
  lemma {:induction false} CandidatesStandInOrder(chunks: map<string, Chunk>, k: nat, w: Weights, ans: Answers)
    ensures var structured, semantic := Ids(MergeOf(ans.structured, w)), Ids(MergeOf(ans.semantic, w));
            Ids(Combined(chunks, k, w, ans)) ==
              if ans.precise && 2 * RecallContents.RowTotal(ans.structured) >= k then structured
              else structured + Others(semantic, structured)
  {
    var structured, semantic := MergeOf(ans.structured, w), MergeOf(ans.semantic, w);
    RecallContents.RowsAreCounted(ans.structured);
    MergeSummarises(ans.semantic, w);
    FoldKeepsOrder(structured, semantic);
    PenaltyKeepsOrder(chunks, if RunsSemantic(k, ans) then FoldAll(structured, semantic) else structured);
  }
}
