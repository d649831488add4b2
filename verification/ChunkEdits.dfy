/** What an update or a forgetting leaves, field by field and cache by cache
    (src/edit/operations.ts, src/edit/invalidate.ts). */
module ChunkEdits {
  import opened SeqTools
  import opened Chunks
  import opened Ranking
  import opened RecallTiers
  import Lru

  lemma {:induction false} FindWithout<V>(es: seq<Lru.Entry<V>>, id: string, j: string)
    ensures Lru.Find(Lru.Without(es, id), j) == if j == id then None else Lru.Find(es, j)
  {
    if es != [] { FindWithout(es[1..], id, j); }
  }

  /** An edit takes its chunk out of every working set, and nothing else out of any; a successful
      invalidation marks every row of cache.recall and touches nothing else in it. */
  lemma {:induction false} InvalidationTakesOnlyItsChunk(w: World, id: string, bustOk: bool, key: string, j: string, q: (string, string))
    ensures var after := Invalidated(w, id, bustOk);
            && after.t0.Keys == w.t0.Keys && after.recalls.Keys == w.recalls.Keys
            && after.chunks == w.chunks && after.now == w.now
            && (key in w.t0 ==> after.t0[key].primed == w.t0[key].primed
                                && Lru.Find(after.t0[key].entries, j) == if j == id then None else Lru.Find(w.t0[key].entries, j))
            && (q in w.recalls ==> after.recalls[q] == if bustOk then w.recalls[q].(invalidated := true) else w.recalls[q])
  {
    if key in w.t0 { FindWithout(w.t0[key].entries, id, j); }
  }

  /** What an edit leaves of its chunk: new text if a different, non-empty one is given and can be
      embedded, a given importance brought into [0, 1], a given class, and all else of the table as it
      was. The caches lose the chunk, whatever changed. An edit of a chunk that is missing, another
      agent's, or not to be changed leaves everything. */
  lemma {:induction false} EditLeaves(w: World, id: string, agent: string, ch: Changes, embedOk: bool, bustOk: bool)
    ensures var (after, out) := UpdateStep(w, id, agent, ch, embedOk, bustOk);
            var mine := id in w.chunks && w.chunks[id].agent == agent;
            var rewrites := mine && ch.text.Some? && ch.text.value != "" && ch.text.value != w.chunks[id].text;
            && (out.Updated? <==> mine && (rewrites ==> embedOk) && (rewrites || ch.importance.Some? || ch.retention.Some?))
            && (!out.Updated? ==> after == w)
            && (out.Updated? ==>
                  var before, c := w.chunks[id], after.chunks[id];
                  && out.reEmbedded == rewrites
                  && after == Invalidated(w.(chunks := w.chunks[id := c]), id, bustOk)
                  && c.agent == agent && c.isProfile == before.isProfile && c.superseded == before.superseded
                  && c.text == (if rewrites then ch.text.value else before.text)
                  && (ch.retention.None? ==> c.retention == before.retention)
                  && (ch.retention.Some? ==> c.retention == ch.retention.value)
                  && (ch.importance.None? ==> c.importance == before.importance)
                  && (ch.importance.Some? ==>
                        && 0.0 <= c.importance <= 1.0
                        && (0.0 <= ch.importance.value <= 1.0 ==> c.importance == ch.importance.value)
                        && (ch.importance.value < 0.0 ==> c.importance == 0.0)
                        && (ch.importance.value > 1.0 ==> c.importance == 1.0)))
            && (out.NotFound? <==> id !in w.chunks)
            && (out.WrongAgent? <==> id in w.chunks && !mine)
            && (out.Failed? <==> rewrites && !embedOk)
  {
  }

  /** Forgetting trashes the chunk, or removes it for good if nothing refers to it; every other chunk
      stays as it was, and so does the trashed one but for its class. The caches lose the chunk. */
  lemma {:induction false} ForgettingLeaves(w: World, id: string, agent: string, hardDelete: bool, blocked: bool, bustOk: bool)
    ensures var (after, out) := ForgetStep(w, id, agent, hardDelete, blocked, bustOk);
            var mine := id in w.chunks && w.chunks[id].agent == agent;
            && (out.Forgotten? <==> mine && !(hardDelete && blocked))
            && (!out.Forgotten? ==> after == w)
            && (out.Forgotten? ==> out.deletedRow == hardDelete && after == Invalidated(w.(chunks := after.chunks), id, bustOk))
            && (out.Forgotten? && hardDelete ==> after.chunks.Keys == w.chunks.Keys - {id})
            && (out.Forgotten? && !hardDelete ==> after.chunks.Keys == w.chunks.Keys && after.chunks[id].retention == Trash
                                                  && after.chunks[id].(retention := w.chunks[id].retention) == w.chunks[id])
            && (forall j :: j in after.chunks && j != id ==> j in w.chunks && after.chunks[j] == w.chunks[j])
            && (out.NotFound? <==> id !in w.chunks)
            && (out.WrongAgent? <==> id in w.chunks && !mine)
  {
  }
}
