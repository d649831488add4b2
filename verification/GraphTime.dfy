/** When an ended relation stops counting in the graph-walk route, and what confidences are multiplied
    (src/recall/routes.ts). */
module GraphTime {
  import opened SeqTools
  import opened GraphWalk

  /** It has not ended, or ended less than 180 days ago. */
  ghost predicate Counts(g: Graph, r: Relation) {
    r in g.relations && (r.endedAt.Some? ==> r.endedAt.value + 15_552_000_000 > g.now)
  }

  /** The relations that count, as if they had not ended. */
  ghost function Timeless(g: Graph): Graph {
    g.(relations := set r <- g.relations | Counts(g, r) :: r.(endedAt := None))
  }

  lemma {:induction false} TimelessRelation(g: Graph, r: Relation)
    requires g.Live(r)
    ensures r.(endedAt := None) in Timeless(g).relations && Timeless(g).Live(r.(endedAt := None))
    ensures Timeless(g).FirstHop(r.(endedAt := None)) == g.FirstHop(r)
    ensures forall h :: Timeless(g).SecondHop(h, r.(endedAt := None)) == g.SecondHop(h, r)
  {
    assert Counts(g, r);
  }

  lemma {:induction false} OriginalRelation(g: Graph, t: Relation) returns (r: Relation)
    requires t in Timeless(g).relations
    ensures r in g.relations && g.Live(r) && t == r.(endedAt := None)
  {
    r :| r in g.relations && Counts(g, r) && t == r.(endedAt := None);
  }

  lemma {:induction false} FirstHopsAgree(g: Graph)
    ensures g.FirstHops() == Timeless(g).FirstHops()
  {
    forall h | h in g.FirstHops() ensures h in Timeless(g).FirstHops() {
      var r :| r in g.relations && g.SelectedFirst(r) && g.FirstHop(r) == h;
      TimelessRelation(g, r);
      assert Timeless(g).SelectedFirst(r.(endedAt := None));
    }
    forall h | h in Timeless(g).FirstHops() ensures h in g.FirstHops() {
      var t :| t in Timeless(g).relations && Timeless(g).SelectedFirst(t) && Timeless(g).FirstHop(t) == h;
      var r := OriginalRelation(g, t);
      assert g.SelectedFirst(r);
    }
  }

  lemma {:induction false} SecondHopsAgree(g: Graph)
    ensures g.SecondHops() == Timeless(g).SecondHops()
  {
    FirstHopsAgree(g);
    forall x | x in g.SecondHops() ensures x in Timeless(g).SecondHops() {
      var h, r :| h in g.FirstHops() && r in g.relations && g.SelectedSecond(h, r) && g.SecondHop(h, r) == x;
      TimelessRelation(g, r);
      assert Timeless(g).SelectedSecond(h, r.(endedAt := None));
    }
    forall x | x in Timeless(g).SecondHops() ensures x in g.SecondHops() {
      var h, t :| h in g.FirstHops() && t in Timeless(g).relations && Timeless(g).SelectedSecond(h, t) && Timeless(g).SecondHop(h, t) == x;
      var r := OriginalRelation(g, t);
      assert g.SelectedSecond(h, r);
    }
  }

  /** The query returns what it would return if the relations that ended 180 days ago or earlier had
      never been, and the others had not ended. */
  lemma {:induction false} EndingsCountAfterGrace(g: Graph, x: Entity, d: nat, c: real)
    ensures g.Returns(x, d, c) <==> Timeless(g).Returns(x, d, c)
  {
    FirstHopsAgree(g);
    SecondHopsAgree(g);
    assert g.RowsAt(x) == Timeless(g).RowsAt(x);
  }

  /** What two relations on the way are worth together. */
  function Product(r1: Relation, r2: Relation): real {
    r1.confidence * r2.confidence
  }

  lemma {:induction false} TimesIsProduct(r1: Relation, r2: Relation)
    ensures Times(r2.confidence, r1.confidence) == Product(r1, r2)
  {
  }

  /** The returned confidence is that of one relation to a seed or the product of two on the way. */
  lemma {:induction false} ConfidenceIsProduct(g: Graph, x: Entity, d: nat, c: real)
    requires g.Returns(x, d, c)
    ensures (exists a, r :: g.Edge(a, r, x) && c == r.confidence)
         || exists a, r1, m, r2 :: g.Edges(a, r1, m, r2, x) && c == Product(r1, r2)
  {
    QueryIsBreadthFirst(g, x, d, c);
    assert g.DirectProduct(x, c);
    if !g.EdgeProduct(x, c) {
      var a, r1, m, r2 :| g.Edges(a, r1, m, r2, x) && g.Followed(r1, m) && c == Times(r2.confidence, r1.confidence);
      TimesIsProduct(r1, r2);
    }
  }

  /** No walk of one relation, or of two that is no detour, has a greater one. */
  lemma {:induction false} NoWalkIsBetter(g: Graph, x: Entity, d: nat, c: real, a: Entity, r1: Relation, m: Entity, r2: Relation)
    requires g.Returns(x, d, c)
    ensures g.Edge(a, r1, x) ==> r1.confidence <= c
    ensures g.Edges(a, r1, m, r2, x) && g.Followed(r1, m) ==> Product(r1, r2) <= c
  {
    QueryIsBreadthFirst(g, x, d, c);
    if g.Edge(a, r1, x) { assert g.EdgeProduct(x, r1.confidence) && g.DirectProduct(x, r1.confidence); }
    if g.Edges(a, r1, m, r2, x) && g.Followed(r1, m) {
      assert g.DirectProduct(x, Times(r2.confidence, r1.confidence));
      TimesIsProduct(r1, r2);
    }
  }
}
