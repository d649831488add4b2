/** The recursive two-hop query of the graph-walk route (src/recall/routes.ts). Tables are sets of
    rows; times are milliseconds. */
module GraphWalk {
  import opened SeqTools

  type Entity = string

  datatype Relation = Relation(subject: Entity, target: Option<Entity>, confidence: real, endedAt: Option<int>)

  const GRACE_MS: int := 180 * 24 * 3600 * 1000

  /** A row of the recursive table `hops`. */
  datatype Hop = Hop(neighbor: Option<Entity>, depth: nat, confidence: real)

  function Times(x: real, y: real): real {
    x * y
  }

  datatype Graph = Graph(relations: set<Relation>, seeds: set<Entity>, now: int)
  {
    /* ---------------------------------- the query ------------------------------ */

    predicate Live(r: Relation) {
      r in relations && (r.endedAt.None? || r.endedAt.value > now - GRACE_MS)
    }

    predicate TouchesSeed(r: Relation) {
      r.subject in seeds || (r.target.Some? && r.target.value in seeds)
    }

    /** The base query's row for r, and the recursive one's for r after hop h. */
    function FirstHop(r: Relation): Hop {
      Hop(if r.subject in seeds then r.target else Some(r.subject), 1, r.confidence)
    }

    function SecondHop(h: Hop, r: Relation): Hop {
      Hop(if Some(r.subject) == h.neighbor then r.target else Some(r.subject), 2, Times(r.confidence, h.confidence))
    }

    predicate SelectedFirst(r: Relation) {
      Live(r) && TouchesSeed(r)
    }

    /** The recursive join condition; a null neighbour joins nothing. */
    predicate SelectedSecond(h: Hop, r: Relation) {
      Live(r) && h.neighbor.Some? && (Some(r.subject) == h.neighbor || r.target == h.neighbor)
    }

    function FirstHops(): set<Hop> {
      set r <- relations | SelectedFirst(r) :: FirstHop(r)
    }

    function SecondHops(): set<Hop> {
      set h <- FirstHops(), r <- relations | SelectedSecond(h, r) :: SecondHop(h, r)
    }

    /** The group of a neighbour in `reachable`: its rows of either depth. */
    function RowsAt(x: Entity): set<Hop> {
      set h <- FirstHops() + SecondHops() | h.neighbor == Some(x)
    }

    /** `reachable` returns (x, minDepth, confidence). */
    ghost predicate Returns(x: Entity, minDepth: nat, confidence: real) {
      && x !in seeds
      && (exists h <- RowsAt(x) :: h.depth == minDepth) && (forall h <- RowsAt(x) :: minDepth <= h.depth)
      && (exists h <- RowsAt(x) :: h.confidence == confidence) && (forall h <- RowsAt(x) :: h.confidence <= confidence)
    }

    /* --------------------------- the undirected graph -------------------------- */

    ghost predicate Joins(r: Relation, a: Entity, b: Entity) {
      Live(r) && ((r.subject == a && r.target == Some(b)) || (r.subject == b && r.target == Some(a)))
    }

    ghost predicate Adjacent(a: Entity, b: Entity) {
      exists r :: Joins(r, a, b)
    }

    /** x can be reached from a seed over exactly n live relations, walked in either direction. */
    ghost predicate Walk(n: nat, x: Entity) {
      if n == 0 then x in seeds else exists m :: Walk(n - 1, m) && Adjacent(m, x)
    }

    /** The breadth-first distance of x from the seed set. */
    ghost predicate AtDistance(n: nat, x: Entity) {
      Walk(n, x) && forall k: nat :: k < n ==> !Walk(k, x)
    }

    ghost predicate Edge(a: Entity, r: Relation, x: Entity) {
      a in seeds && Joins(r, a, x)
    }

    ghost predicate Edges(a: Entity, r1: Relation, m: Entity, r2: Relation, x: Entity) {
      Edge(a, r1, m) && Joins(r2, m, x)
    }

    /** c is the confidence of some walk of one or two relations from a seed to x. */
    ghost predicate PathProduct(x: Entity, c: real) {
      EdgeProduct(x, c) || exists a, r1, m, r2 :: Edges(a, r1, m, r2, x) && c == Times(r2.confidence, r1.confidence)
    }

    ghost predicate EdgeProduct(x: Entity, c: real) {
      exists a, r :: Edge(a, r, x) && c == r.confidence
    }

    ghost predicate BestPath(x: Entity, c: real) {
      PathProduct(x, c) && forall d :: PathProduct(x, d) ==> d <= c
    }

    /* ------------------- the walks that the base query drops -------------------- */

    /** A relation between two seeds is followed from its subject to its object only. */
    ghost predicate Followed(r1: Relation, m: Entity) {
      m in seeds ==> r1.target == Some(m)
    }

    /** A walk that leaves a seed for another against the relation between them. */
    ghost predicate Detour(a: Entity, r1: Relation, m: Entity, r2: Relation, x: Entity) {
      Edges(a, r1, m, r2, x) && !Followed(r1, m)
    }

    ghost predicate DetourProduct(x: Entity, c: real) {
      exists a, r1, m, r2 :: Detour(a, r1, m, r2, x) && c == Times(r2.confidence, r1.confidence)
    }

    /** c is the confidence of a walk that is no detour. */
    ghost predicate DirectProduct(x: Entity, c: real) {
      || EdgeProduct(x, c)
      || exists a, r1, m, r2 ::
           Edges(a, r1, m, r2, x) && Followed(r1, m) && c == Times(r2.confidence, r1.confidence)
    }

    ghost predicate BestDirectPath(x: Entity, c: real) {
      DirectProduct(x, c) && forall d :: DirectProduct(x, d) ==> d <= c
    }

    /** Every detour to x is matched by a walk that is none. */
    ghost predicate DetoursGainNothing(x: Entity) {
      forall c :: DetourProduct(x, c) ==> exists d :: DirectProduct(x, d) && c <= d
    }

    /** Live confidences are not negative, and none between two seeds exceeds 1. Nothing in the
        schema or the extractors enforces it. */
    ghost predicate SeedsGainNothing() {
      && (forall r <- relations :: Live(r) ==> 0.0 <= r.confidence)
      && forall a, r, m :: Joins(r, a, m) && a in seeds && m in seeds ==> r.confidence <= 1.0
    }
  }

  /* ------------------------- rows against walks, both ways --------------------- */

  /** A row names an entity that is no seed and was reached by the walk its depth says. */
  lemma {:induction false} FirstRowIsEdge(g: Graph, x: Entity, h: Hop) returns (a: Entity, r: Relation)
    requires x !in g.seeds && h in g.FirstHops() && h.neighbor == Some(x)
    ensures g.Edge(a, r, x) && h == Hop(Some(x), 1, r.confidence)
  {
    r :| r in g.relations && g.SelectedFirst(r) && h == g.FirstHop(r);
    a := if r.subject in g.seeds then r.subject else r.target.value;
  }

  lemma {:induction false} SecondRowIsWalk(g: Graph, x: Entity, h: Hop)
      returns (a: Entity, r1: Relation, m: Entity, r2: Relation)
    requires h in g.SecondHops() && h.neighbor == Some(x)
    ensures g.Edges(a, r1, m, r2, x) && g.Followed(r1, m)
    ensures h == Hop(Some(x), 2, Times(r2.confidence, r1.confidence))
  {
    var k: Hop, s: Relation :| k in g.FirstHops() && s in g.relations && g.SelectedSecond(k, s) && h == g.SecondHop(k, s);
    r2 := s;
    m := k.neighbor.value;
    r1 :| r1 in g.relations && g.SelectedFirst(r1) && k == g.FirstHop(r1);
    a := if r1.subject in g.seeds then r1.subject else r1.target.value;
  }

  /** A walk that is no detour has its own row. */
  lemma {:induction false} WalkIsSecondRow(g: Graph, a: Entity, r1: Relation, m: Entity, r2: Relation, x: Entity)
    requires x !in g.seeds && g.Edges(a, r1, m, r2, x) && g.Followed(r1, m)
    ensures Hop(Some(x), 2, Times(r2.confidence, r1.confidence)) in g.RowsAt(x)
  {
    var k := Hop(Some(m), 1, r1.confidence);
    assert g.SelectedFirst(r1) && g.FirstHop(r1) == k;
    assert g.SelectedSecond(k, r2);
    assert g.SecondHop(k, r2) == Hop(Some(x), 2, Times(r2.confidence, r1.confidence));
  }

  lemma {:induction false} RowKinds(g: Graph, x: Entity, h: Hop)
    requires x !in g.seeds && h in g.RowsAt(x)
    ensures h.depth == 1 || h.depth == 2
    ensures h.depth == 1 ==> g.EdgeProduct(x, h.confidence)
    ensures h.depth == 2 ==> exists a, r1, m, r2 ::
              g.Edges(a, r1, m, r2, x) && g.Followed(r1, m) && h.confidence == Times(r2.confidence, r1.confidence)
  {
    if h in g.FirstHops() {
      var a, r := FirstRowIsEdge(g, x, h);
    } else {
      var a, r1, m, r2 := SecondRowIsWalk(g, x, h);
    }
  }

  /** The confidences of the rows are the products of the walks that are no detours. */
  lemma {:induction false} RowsAreDirectProducts(g: Graph, x: Entity, c: real)
    requires x !in g.seeds
    ensures g.DirectProduct(x, c) <==> exists h <- g.RowsAt(x) :: h.confidence == c
  {
    forall h <- g.RowsAt(x) ensures g.DirectProduct(x, h.confidence) { RowKinds(g, x, h); }
    if g.EdgeProduct(x, c) {
      var a, r :| g.Edge(a, r, x) && c == r.confidence;
      assert Hop(Some(x), 1, c) in g.RowsAt(x);
    } else if g.DirectProduct(x, c) {
      var a, r1, m, r2 :| g.Edges(a, r1, m, r2, x) && g.Followed(r1, m) && c == Times(r2.confidence, r1.confidence);
      WalkIsSecondRow(g, a, r1, m, r2, x);
    }
  }

  /** A detour has no row of its own, but its last relation alone has one. */
  lemma {:induction false} WalkHasRow(g: Graph, a: Entity, r1: Relation, m: Entity, r2: Relation, x: Entity)
    requires x !in g.seeds && g.Edges(a, r1, m, r2, x)
    ensures exists h :: h in g.RowsAt(x)
  {
    if m in g.seeds {
      assert Hop(Some(x), 1, r2.confidence) in g.RowsAt(x);
    } else {
      WalkIsSecondRow(g, a, r1, m, r2, x);
    }
  }

  lemma {:induction false} OneStepWalks(g: Graph, x: Entity)
    ensures g.Walk(1, x) <==> exists a, r :: g.Edge(a, r, x)
  {
    if g.Walk(1, x) {
      var a :| g.Walk(0, a) && g.Adjacent(a, x);
      var r :| g.Joins(r, a, x);
      assert g.Edge(a, r, x);
    }
    if a, r :| g.Edge(a, r, x) {
      assert g.Walk(0, a) && g.Adjacent(a, x);
    }
  }

  lemma {:induction false} TwoStepWalks(g: Graph, x: Entity)
    ensures g.Walk(2, x) <==> exists a, r1, m, r2 :: g.Edges(a, r1, m, r2, x)
  {
    if g.Walk(2, x) {
      var m :| g.Walk(1, m) && g.Adjacent(m, x);
      OneStepWalks(g, m);
      var a, r1 :| g.Edge(a, r1, m);
      var r2 :| g.Joins(r2, m, x);
      assert g.Edges(a, r1, m, r2, x);
    }
    if a, r1, m, r2 :| g.Edges(a, r1, m, r2, x) {
      OneStepWalks(g, m);
      assert g.Walk(1, m) && g.Adjacent(m, x);
    }
  }

  /** The depths among an entity's rows: 1 exactly if it has a seed neighbour, any row at all
      exactly if it can be reached in one or two steps. */
  lemma {:induction false} RowsAreWalks(g: Graph, x: Entity)
    requires x !in g.seeds
    ensures g.Walk(1, x) <==> exists h <- g.RowsAt(x) :: h.depth == 1
    ensures g.Walk(1, x) || g.Walk(2, x) <==> exists h :: h in g.RowsAt(x)
  {
    OneStepWalks(g, x);
    TwoStepWalks(g, x);
    forall h <- g.RowsAt(x) ensures if h.depth == 1 then g.Walk(1, x) else g.Walk(2, x) {
      RowKinds(g, x, h);
    }
    if a, r :| g.Edge(a, r, x) {
      assert Hop(Some(x), 1, r.confidence) in g.RowsAt(x);
    }
    if a, r1, m, r2 :| g.Edges(a, r1, m, r2, x) {
      WalkHasRow(g, a, r1, m, r2, x);
    }
  }

  lemma {:induction false} DepthIsDistance(g: Graph, x: Entity, d: nat)
    requires x !in g.seeds
    ensures (d == 1 || d == 2) && g.AtDistance(d, x)
       <==> (exists h <- g.RowsAt(x) :: h.depth == d) && forall h <- g.RowsAt(x) :: d <= h.depth
  {
    RowsAreWalks(g, x);
    assert !g.Walk(0, x);
    forall h <- g.RowsAt(x) ensures h.depth == 1 || h.depth == 2 { RowKinds(g, x, h); }
  }

  lemma {:induction false} ConfidenceIsBestDirectPath(g: Graph, x: Entity, c: real)
    requires x !in g.seeds
    ensures g.BestDirectPath(x, c)
       <==> (exists h <- g.RowsAt(x) :: h.confidence == c) && forall h <- g.RowsAt(x) :: h.confidence <= c
  {
    forall h <- g.RowsAt(x) ensures g.DirectProduct(x, h.confidence) {
      RowsAreDirectProducts(g, x, h.confidence);
    }
    forall d | g.DirectProduct(x, d) ensures exists h <- g.RowsAt(x) :: h.confidence == d {
      RowsAreDirectProducts(g, x, d);
    }
  }

  /** The query is a breadth-first search: whatever the confidences, it returns an entity, a depth
      and a confidence exactly when the entity is at that undirected distance, 1 or 2, from the
      seeds, and the confidence is the best product of the walks of at most two relations that are
      no detours. */
  lemma {:induction false} QueryIsBreadthFirst(g: Graph, x: Entity, d: nat, c: real)
    ensures g.Returns(x, d, c) <==> (d == 1 || d == 2) && g.AtDistance(d, x) && g.BestDirectPath(x, c)
  {
    if x in g.seeds {
      assert g.Walk(0, x);
    } else {
      DepthIsDistance(g, x, d);
      ConfidenceIsBestDirectPath(g, x, c);
    }
  }

  lemma {:induction false} ProductsSplit(g: Graph, x: Entity, c: real)
    ensures g.PathProduct(x, c) <==> g.DirectProduct(x, c) || g.DetourProduct(x, c)
  {
    if g.PathProduct(x, c) && !g.EdgeProduct(x, c) {
      var a, r1, m, r2 :| g.Edges(a, r1, m, r2, x) && c == Times(r2.confidence, r1.confidence);
      assert g.Followed(r1, m) || g.Detour(a, r1, m, r2, x);
    }
  }

  /** The returned confidence is the best product of all walks of at most two relations exactly when
      every detour is matched by a walk that is none. */
  lemma {:induction false} ConfidenceIsBestPathIff(g: Graph, x: Entity, d: nat, c: real)
    requires g.Returns(x, d, c)
    ensures g.BestPath(x, c) <==> g.DetoursGainNothing(x)
  {
    ConfidenceIsBestDirectPath(g, x, c);
    forall p ensures g.PathProduct(x, p) <==> g.DirectProduct(x, p) || g.DetourProduct(x, p) {
      ProductsSplit(g, x, p);
    }
  }

  /** Detours gain nothing when no relation between seeds exceeds 1 and no confidence is negative. */
  lemma {:induction false} TameSeedsGainNothing(g: Graph, x: Entity)
    requires g.SeedsGainNothing() && x !in g.seeds
    ensures g.DetoursGainNothing(x)
  {
    forall c | g.DetourProduct(x, c) ensures exists d :: g.DirectProduct(x, d) && c <= d {
      var a, r1, m, r2 :| g.Detour(a, r1, m, r2, x) && c == Times(r2.confidence, r1.confidence);
      assert g.Edge(m, r2, x);
      assert g.DirectProduct(x, r2.confidence);
    }
  }

  /** So then the query is breadth-first search with the best path product over all walks. */
  lemma {:induction false} TameQueryFindsBestPath(g: Graph, x: Entity, d: nat, c: real)
    requires g.SeedsGainNothing()
    ensures g.Returns(x, d, c) <==> (d == 1 || d == 2) && g.AtDistance(d, x) && g.BestPath(x, c)
  {
    QueryIsBreadthFirst(g, x, d, c);
    if x in g.seeds {
      assert g.Walk(0, x);
    } else {
      TameSeedsGainNothing(g, x);
      forall p ensures g.PathProduct(x, p) <==> g.DirectProduct(x, p) || g.DetourProduct(x, p) {
        ProductsSplit(g, x, p);
      }
    }
  }

  /** A detour over a relation above 1 can gain: here the query returns 0.5, and the best is 1.0. */
  lemma {:induction false} DetourOverSeedsCanBeatTheQuery()
    ensures var r1, r2 := Relation("m", Some("a"), 2.0, None), Relation("m", Some("x"), 0.5, None);
            var g := Graph({r1, r2}, {"a", "m"}, 0);
            g.Returns("x", 1, 0.5) && g.PathProduct("x", 1.0) && !g.DetoursGainNothing("x")
  {
    var r1, r2 := Relation("m", Some("a"), 2.0, None), Relation("m", Some("x"), 0.5, None);
    var g := Graph({r1, r2}, {"a", "m"}, 0);
    var hop := Hop(Some("x"), 1, 0.5);
    assert hop in g.RowsAt("x");
    forall h <- g.RowsAt("x") ensures h == hop {
      if h in g.FirstHops() { var a, r := FirstRowIsEdge(g, "x", h); }
    }
    assert g.Edges("a", r1, "m", r2, "x") && 1.0 == Times(r2.confidence, r1.confidence);
    assert g.PathProduct("x", 1.0) && !g.BestPath("x", 0.5);
    ConfidenceIsBestPathIff(g, "x", 1, 0.5);
  }

  /** Every entity at distance 1 or 2 is returned, once. */
  lemma {:induction false} EveryNearbyEntityIsReturned(g: Graph, x: Entity)
    requires x !in g.seeds && (g.Walk(1, x) || g.Walk(2, x))
    ensures exists d, c :: g.Returns(x, d, c)
    ensures forall d, c, d', c' :: g.Returns(x, d, c) && g.Returns(x, d', c') ==> d == d' && c == c'
  {
    RowsAreWalks(g, x);
    var rows := g.RowsAt(x);
    forall h <- rows ensures h.depth == 1 || h.depth == 2 { RowKinds(g, x, h); }
    var best := Greatest(rows);
    var d := if exists h <- rows :: h.depth == 1 then 1 else 2;
    assert g.Returns(x, d, best.confidence);
  }

  lemma {:induction false} Greatest(rows: set<Hop>) returns (best: Hop)
    requires exists h :: h in rows
    ensures best in rows && forall h <- rows :: h.confidence <= best.confidence
    decreases rows
  {
    best :| best in rows;
    var rest := rows - {best};
    if k :| k in rest {
      var other := Greatest(rest);
      assert forall h <- rows :: h == best || h in rest;
      if other.confidence > best.confidence { best := other; }
    } else {
      assert forall h <- rows :: h == best || h in rest;
    }
  }
}
