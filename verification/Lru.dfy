/** The Map-based least-recently-used caches: the in-memory embedding cache
    (src/cache/embeddings.ts), a session's working set (src/recall/working-set.ts) and the L0
    answer cache (src/moderator/cache-precheck.ts). A JavaScript Map iterates in insertion order,
    so it is modelled as a sequence of entries without repeated keys. */
module Lru {
  import opened SeqTools
  import Strings

  datatype Entry<V> = Entry(key: string, value: V)

  /* -------------------------------- ordered maps ------------------------------ */

  ghost function KeySet<V>(es: seq<Entry<V>>): set<string> {
    set e <- es :: e.key
  }

  /** `map.get(k)` */
  function Find<V>(es: seq<Entry<V>>, k: string): Option<V> {
    if es == [] then None
    else if es[0].key == k then Some(es[0].value)
    else Find(es[1..], k)
  }

  /** `map.delete(k)` */
  function Without<V>(es: seq<Entry<V>>, k: string): seq<Entry<V>> {
    if es == [] then []
    else if es[0].key == k then Without(es[1..], k)
    else [es[0]] + Without(es[1..], k)
  }

  /** Delete and insert again: the entry moves to the recent end. */
  function Bump<V>(es: seq<Entry<V>>, k: string, v: V): seq<Entry<V>> {
    Without(es, k) + [Entry(k, v)]
  }

  /** Drop the oldest entry when over the cap. */
  function Cap<V>(es: seq<Entry<V>>, maxSize: nat): seq<Entry<V>> {
    if |es| > maxSize then es[1..] else es
  }

  ghost predicate UniqueKeys<V>(es: seq<Entry<V>>) {
    es == [] || (es[0].key !in KeySet(es[1..]) && UniqueKeys(es[1..]))
  }

  lemma {:induction false} KeySetCons<V>(es: seq<Entry<V>>)
    requires es != []
    ensures KeySet(es) == {es[0].key} + KeySet(es[1..])
  {
    assert forall e :: e in es <==> e == es[0] || e in es[1..];
  }

  lemma {:induction false} KeySetSnoc<V>(es: seq<Entry<V>>, e: Entry<V>)
    ensures KeySet(es + [e]) == KeySet(es) + {e.key}
  {
    assert forall x :: x in es + [e] <==> x in es || x == e;
  }

  lemma {:induction false} FindInKeySet<V>(es: seq<Entry<V>>, k: string)
    ensures Find(es, k).Some? <==> k in KeySet(es)
    ensures Find(es, k).Some? ==> Entry(k, Find(es, k).value) in es
  {
    if es != [] {
      KeySetCons(es);
      FindInKeySet(es[1..], k);
    }
  }

  lemma {:induction false} WithoutKeys<V>(es: seq<Entry<V>>, k: string)
    ensures KeySet(Without(es, k)) == KeySet(es) - {k}
    ensures UniqueKeys(es) ==> UniqueKeys(Without(es, k))
    ensures forall e :: e in Without(es, k) ==> e in es && e.key != k
  {
    if es != [] {
      KeySetCons(es);
      WithoutKeys(es[1..], k);
      if es[0].key != k { KeySetCons(Without(es, k)); }
    }
  }

  lemma {:induction false} UniqueSize<V>(es: seq<Entry<V>>)
    requires UniqueKeys(es)
    ensures |KeySet(es)| == |es|
  {
    if es != [] {
      KeySetCons(es);
      UniqueSize(es[1..]);
    }
  }

  lemma {:induction false} UniqueSnoc<V>(es: seq<Entry<V>>, e: Entry<V>)
    requires UniqueKeys(es) && e.key !in KeySet(es)
    ensures UniqueKeys(es + [e])
  {
    if es != [] {
      KeySetCons(es);
      UniqueSnoc(es[1..], e);
      KeySetSnoc(es[1..], e);
      assert (es + [e])[1..] == es[1..] + [e];
    }
  }

  /* ------------------------ least recently used, key by key -------------------- */

  /** A key is used by an insertion or a hit, and evicted by an explicit removal. */
  datatype Use = Used(key: string) | Evicted(key: string)

  /** The fate of one key under a cap: None if it is not to be held; else the other held keys used
      after it. A key leaves when it is evicted or when that set would reach the cap. */
  function Fate(log: seq<Use>, k: string, maxSize: nat): Option<set<string>> {
    if log == [] then None
    else
      var n := |log| - 1;
      var before := Fate(log[..n], k, maxSize);
      match log[n]
      case Used(j) =>
        if j == k then (if maxSize > 0 then Some({}) else None)
        else if before.Some? && |before.value + {j}| < maxSize then Some(before.value + {j})
        else None
      case Evicted(j) =>
        if j == k || before.None? then None else Some(before.value - {j})
  }

  /** Each entry is followed by exactly the keys its fate lists. */
  ghost predicate Ordered<V>(es: seq<Entry<V>>, log: seq<Use>, maxSize: nat) {
    es == [] || (Fate(log, es[0].key, maxSize) == Some(KeySet(es[1..])) && Ordered(es[1..], log, maxSize))
  }

  /** The cache is the least-recently-used cache of the log: it holds exactly the keys whose fate
      is to be held, oldest use first, and never more than the cap. */
  ghost predicate Tracks<V>(es: seq<Entry<V>>, log: seq<Use>, maxSize: nat) {
    && UniqueKeys(es) && |es| <= maxSize && Ordered(es, log, maxSize)
    && forall k :: k in KeySet(es) <==> Fate(log, k, maxSize).Some?
  }

  lemma {:induction false} FateSnoc(log: seq<Use>, u: Use, k: string, maxSize: nat)
    ensures Fate(log + [u], k, maxSize) ==
            var before := Fate(log, k, maxSize);
            match u
            case Used(j) =>
              if j == k then (if maxSize > 0 then Some({}) else None)
              else if before.Some? && |before.value + {j}| < maxSize then Some(before.value + {j})
              else None
            case Evicted(j) => if j == k || before.None? then None else Some(before.value - {j})
  {
    assert (log + [u])[..|log|] == log;
  }

  /** Ordering survives a use as long as every entry stays under the cap. */
  lemma {:induction false} UseKeepsOrder<V>(es: seq<Entry<V>>, log: seq<Use>, k: string, v: V, maxSize: nat)
    requires UniqueKeys(es) && Ordered(es, log, maxSize) && maxSize > 0
    requires |Bump(es, k, v)| <= maxSize
    ensures Ordered(Bump(es, k, v), log + [Used(k)], maxSize)
  {
    var b := Bump(es, k, v);
    if es == [] {
      FateSnoc(log, Used(k), k, maxSize);
      assert b == [Entry(k, v)] && b[1..] == [] && KeySet(b[1..]) == {};
      assert Ordered(b[1..], log + [Used(k)], maxSize);
    } else {
      var rest := es[1..];
      if es[0].key == k {
        UseKeepsOrder(rest, log, k, v, maxSize);
      } else {
        var b' := Bump(rest, k, v);
        assert b == [es[0]] + b';
        UseKeepsOrder(rest, log, k, v, maxSize);
        WithoutKeys(rest, k);
        KeySetSnoc(Without(rest, k), Entry(k, v));
        assert KeySet(b') == KeySet(rest) + {k};
        UniqueSnoc(Without(rest, k), Entry(k, v));
        UniqueSize(b');
        FateSnoc(log, Used(k), es[0].key, maxSize);
      }
    }
  }

  lemma {:induction false} EvictKeepsOrder<V>(es: seq<Entry<V>>, log: seq<Use>, k: string, maxSize: nat)
    requires UniqueKeys(es) && Ordered(es, log, maxSize)
    ensures Ordered(Without(es, k), log + [Evicted(k)], maxSize)
  {
    if es != [] {
      EvictKeepsOrder(es[1..], log, k, maxSize);
      if es[0].key != k {
        WithoutKeys(es[1..], k);
        FateSnoc(log, Evicted(k), es[0].key, maxSize);
        assert Without(es, k)[1..] == Without(es[1..], k);
      }
    }
  }

  lemma {:induction false} EvictTracks<V>(es: seq<Entry<V>>, log: seq<Use>, k: string, maxSize: nat)
    requires Tracks(es, log, maxSize)
    ensures Tracks(Without(es, k), log + [Evicted(k)], maxSize)
  {
    EvictKeepsOrder(es, log, k, maxSize);
    WithoutKeys(es, k);
    UniqueSize(es);
    UniqueSize(Without(es, k));
    SubsetSize(KeySet(Without(es, k)), KeySet(es));
    forall j ensures j in KeySet(Without(es, k)) <==> Fate(log + [Evicted(k)], j, maxSize).Some? {
      FateSnoc(log, Evicted(k), j, maxSize);
    }
  }

  /** A held key's fate lists other held keys, and never one older than itself. */
  lemma {:induction false} FateOfHeld<V>(es: seq<Entry<V>>, log: seq<Use>, k: string, maxSize: nat)
    requires UniqueKeys(es) && Ordered(es, log, maxSize) && k in KeySet(es)
    ensures Fate(log, k, maxSize).Some? && Fate(log, k, maxSize).value <= KeySet(es) - {k}
    ensures es[0].key != k ==> es[0].key !in Fate(log, k, maxSize).value
  {
    KeySetCons(es);
    if es[0].key != k { FateOfHeld(es[1..], log, k, maxSize); }
  }

  /** Below the cap, or with k already held, every other key stays; else all but the oldest do. */
  lemma {:induction false} HeldStaysUnderCap<V>(es: seq<Entry<V>>, log: seq<Use>, j: string, k: string, maxSize: nat)
    requires Tracks(es, log, maxSize) && j != k && j in KeySet(es)
    requires |es| < maxSize || k in KeySet(es) || es[0].key != j
    ensures Fate(log, j, maxSize).Some? && |Fate(log, j, maxSize).value + {k}| < maxSize
  {
    FateOfHeld(es, log, j, maxSize);
    UniqueSize(es);
    KeySetCons(es);
    var others := Fate(log, j, maxSize).value;
    if k in KeySet(es) {
      SubsetSize(others + {k}, KeySet(es));
    } else if |es| < maxSize {
      SubsetSize(others, KeySet(es));
    } else {
      SubsetSize(others + {es[0].key}, KeySet(es));
    }
  }

  /** Which keys are to be held after a use. */
  lemma {:induction false} HeldAfterUse<V>(es: seq<Entry<V>>, log: seq<Use>, k: string, j: string, maxSize: nat)
    requires Tracks(es, log, maxSize) && maxSize > 0
    ensures var full := |es| == maxSize && k !in KeySet(es);
            Fate(log + [Used(k)], j, maxSize).Some? <==>
            j == k || j in (if full then KeySet(es[1..]) else KeySet(es))
  {
    FateSnoc(log, Used(k), j, maxSize);
    if es != [] { KeySetCons(es); }
    if j != k && j in KeySet(es) {
      if |es| == maxSize && k !in KeySet(es) && j == es[0].key {
        assert Fate(log, j, maxSize) == Some(KeySet(es[1..]));
        UniqueSize(es);
        UniqueSize(es[1..]);
      } else {
        HeldStaysUnderCap(es, log, j, k, maxSize);
      }
    }
  }

  /** Inserting or hitting a key, with the oldest entry dropped when over the cap, follows the log. */
  lemma {:induction false} UseTracks<V>(es: seq<Entry<V>>, log: seq<Use>, k: string, v: V, maxSize: nat)
    requires Tracks(es, log, maxSize)
    ensures Tracks(Cap(Bump(es, k, v), maxSize), log + [Used(k)], maxSize)
  {
    if maxSize == 0 {
      NothingFits(log + [Used(k)]);
    } else if |es| == maxSize && k !in KeySet(es) {
      FullUseTracks(es, log, k, v, maxSize);
    } else {
      RoomyUseTracks(es, log, k, v, maxSize);
    }
  }

  lemma {:induction false} NothingFits(log: seq<Use>)
    ensures forall k :: Fate(log, k, 0).None?
  {
    if log != [] { NothingFits(log[..|log| - 1]); }
  }

  /** With room for k, or with k held already, nothing else moves. */
  lemma {:induction false} RoomyUseTracks<V>(es: seq<Entry<V>>, log: seq<Use>, k: string, v: V, maxSize: nat)
    requires Tracks(es, log, maxSize) && maxSize > 0 && (|es| < maxSize || k in KeySet(es))
    ensures |Bump(es, k, v)| <= maxSize && Tracks(Bump(es, k, v), log + [Used(k)], maxSize)
  {
    WithoutKeys(es, k);
    var w, b := Without(es, k), Bump(es, k, v);
    KeySetSnoc(w, Entry(k, v));
    UniqueSnoc(w, Entry(k, v));
    UniqueSize(w);
    UniqueSize(es);
    SubsetSize(KeySet(w), KeySet(es));
    UseKeepsOrder(es, log, k, v, maxSize);
    forall j ensures j in KeySet(b) <==> Fate(log + [Used(k)], j, maxSize).Some? {
      HeldAfterUse(es, log, k, j, maxSize);
    }
  }

  lemma {:induction false} NewKeyKeepsOrder<V>(rest: seq<Entry<V>>, log: seq<Use>, k: string, v: V, maxSize: nat)
    requires UniqueKeys(rest) && Ordered(rest, log, maxSize) && |rest| < maxSize && k !in KeySet(rest)
    ensures UniqueKeys(rest + [Entry(k, v)]) && Ordered(rest + [Entry(k, v)], log + [Used(k)], maxSize)
  {
    WithoutAbsent(rest, k);
    UseKeepsOrder(rest, log, k, v, maxSize);
    UniqueSnoc(rest, Entry(k, v));
  }

  /** A full cache gives up its oldest key for a new one. */
  lemma {:induction false} FullUseTracks<V>(es: seq<Entry<V>>, log: seq<Use>, k: string, v: V, maxSize: nat)
    requires Tracks(es, log, maxSize) && |es| == maxSize > 0 && k !in KeySet(es)
    ensures Cap(Bump(es, k, v), maxSize) == es[1..] + [Entry(k, v)]
    ensures Tracks(es[1..] + [Entry(k, v)], log + [Used(k)], maxSize)
  {
    var rest, after := es[1..], es[1..] + [Entry(k, v)];
    KeySetCons(es);
    NewKeyKeepsOrder(rest, log, k, v, maxSize);
    FullKeys(es, log, k, v, maxSize);
    FullBump(es, k, v);
    assert |after| == maxSize;
  }

  lemma {:induction false} FullBump<V>(es: seq<Entry<V>>, k: string, v: V)
    requires es != [] && k !in KeySet(es)
    ensures Cap(Bump(es, k, v), |es|) == es[1..] + [Entry(k, v)]
  {
    WithoutAbsent(es, k);
    assert (es + [Entry(k, v)])[1..] == es[1..] + [Entry(k, v)];
  }

  lemma {:induction false} FullKeys<V>(es: seq<Entry<V>>, log: seq<Use>, k: string, v: V, maxSize: nat)
    requires Tracks(es, log, maxSize) && |es| == maxSize > 0 && k !in KeySet(es)
    ensures forall j :: j in KeySet(es[1..] + [Entry(k, v)]) <==> Fate(log + [Used(k)], j, maxSize).Some?
  {
    KeySetSnoc(es[1..], Entry(k, v));
    forall j ensures j in KeySet(es[1..]) + {k} <==> Fate(log + [Used(k)], j, maxSize).Some? {
      HeldAfterUse(es, log, k, j, maxSize);
    }
  }

  lemma {:induction false} WithoutAbsent<V>(es: seq<Entry<V>>, k: string)
    requires k !in KeySet(es)
    ensures Without(es, k) == es
  {
    if es != [] {
      KeySetCons(es);
      WithoutAbsent(es[1..], k);
    }
  }

  /** A hit moves its entry and exceeds no cap. */
  lemma {:induction false} HitTracks<V>(es: seq<Entry<V>>, log: seq<Use>, k: string, v: V, maxSize: nat)
    requires Tracks(es, log, maxSize) && Find(es, k).Some?
    ensures Tracks(Bump(es, k, v), log + [Used(k)], maxSize)
  {
    FindInKeySet(es, k);
    HitFits(es, k, v, maxSize);
    UseTracks(es, log, k, v, maxSize);
  }

  /* ------------------------------ the embedding cache -------------------------- */

  datatype Op<V> = SetOp(key: string, value: V) | GetOp(key: string)

  function Applied<V>(es: seq<Entry<V>>, op: Op<V>, maxSize: nat): seq<Entry<V>> {
    match op
    case SetOp(k, v) => Cap(Bump(es, k, v), maxSize)
    case GetOp(k) => match Find(es, k) { case None => es case Some(v) => Bump(es, k, v) }
  }

  class MemoryEmbeddingCache<V> {
    const maxSize: nat
    var entries: seq<Entry<V>>

    constructor (maxSize: nat)
      ensures this.maxSize == maxSize && entries == []
    {
      this.maxSize, entries := maxSize, [];
    }

    method Get(key: string) returns (hit: Option<V>)
      modifies `entries
      ensures hit == Find(old(entries), key)
      ensures entries == Applied(old(entries), GetOp(key), maxSize)
    {
      hit := Find(entries, key);
      if hit.None? { return; }
      entries := Without(entries, key);
      entries := entries + [Entry(key, hit.value)];
    }

    method Set(key: string, entry: V)
      modifies `entries
      ensures entries == Applied(old(entries), SetOp(key, entry), maxSize)
    {
      entries := Without(entries, key);
      entries := entries + [Entry(key, entry)];
      if |entries| > maxSize {
        entries := entries[1..];
      }
    }
  }

  /** The cache after a log of operations. */
  function Cached<V>(ops: seq<Op<V>>, maxSize: nat): seq<Entry<V>> {
    if ops == [] then [] else Applied(Cached(ops[..|ops| - 1], maxSize), ops[|ops| - 1], maxSize)
  }

  /** The keys of the sets and of the hits of a log, in order. */
  function Touches<V>(ops: seq<Op<V>>, maxSize: nat): seq<string> {
    if ops == [] then []
    else
      var n := |ops| - 1;
      Touches(ops[..n], maxSize) +
      if ops[n].SetOp? || Find(Cached(ops[..n], maxSize), ops[n].key).Some? then [ops[n].key] else []
  }

  function UsesOf(touches: seq<string>): seq<Use> {
    seq(|touches|, i requires 0 <= i < |touches| => Used(touches[i]))
  }

  /** The distinct keys touched after the last touch of k. */
  function Since(touches: seq<string>, k: string): set<string> {
    if touches == [] || touches[|touches| - 1] == k then {}
    else Since(touches[..|touches| - 1], k) + {touches[|touches| - 1]}
  }

  function LastSet<V>(ops: seq<Op<V>>, k: string): Option<V> {
    if ops == [] then None
    else
      var op := ops[|ops| - 1];
      if op.SetOp? && op.key == k then Some(op.value) else LastSet(ops[..|ops| - 1], k)
  }

  lemma {:induction false} SinceSnoc(touches: seq<string>, j: string, k: string)
    ensures Since(touches + [j], k) == if j == k then {} else Since(touches, k) + {j}
    ensures k in touches + [j] <==> k in touches || k == j
  {
    assert (touches + [j])[..|touches|] == touches;
  }

  /** Without evictions a key is to be held exactly while fewer than the cap of distinct other keys
      have been touched since. */
  lemma {:induction false} FateOfTouches(touches: seq<string>, k: string, maxSize: nat)
    ensures Fate(UsesOf(touches), k, maxSize) ==
            if k in touches && |Since(touches, k)| < maxSize then Some(Since(touches, k)) else None
  {
    if touches != [] {
      var n := |touches| - 1;
      var init, j := touches[..n], touches[n];
      FateOfTouches(init, k, maxSize);
      assert UsesOf(touches) == UsesOf(init) + [Used(j)];
      FateSnoc(UsesOf(init), Used(j), k, maxSize);
      SinceSnoc(init, j, k);
      assert touches == init + [j];
      SubsetSize(Since(init, k), Since(init, k) + {j});
    }
  }

  lemma {:induction false} CachedTracks<V>(ops: seq<Op<V>>, maxSize: nat)
    ensures Tracks(Cached(ops, maxSize), UsesOf(Touches(ops, maxSize)), maxSize)
  {
    if ops != [] {
      var n := |ops| - 1;
      var op := ops[n];
      var es, touches := Cached(ops[..n], maxSize), Touches(ops[..n], maxSize);
      CachedTracks(ops[..n], maxSize);
      if op.SetOp? || Find(es, op.key).Some? {
        assert UsesOf(touches + [op.key]) == UsesOf(touches) + [Used(op.key)];
        var v := if op.SetOp? then op.value else Find(es, op.key).value;
        UseTracks(es, UsesOf(touches), op.key, v, maxSize);
        FindInKeySet(es, op.key);
        HitFits(es, op.key, v, maxSize);
      } else {
        assert touches + [] == touches;
      }
    }
  }

  lemma {:induction false} BumpMembers<V>(es: seq<Entry<V>>, k: string, v: V, maxSize: nat)
    ensures forall e :: e in Bump(es, k, v) ==> e == Entry(k, v) || (e in es && e.key != k)
    ensures forall e :: e in Cap(Bump(es, k, v), maxSize) ==> e in Bump(es, k, v)
  {
    WithoutKeys(es, k);
    var w := Without(es, k);
    assert forall e :: e in w ==> e in es && e.key != k;
    assert forall e :: e in w + [Entry(k, v)] ==> e in w || e == Entry(k, v);
  }

  ghost predicate AllLastSet<V>(es: seq<Entry<V>>, ops: seq<Op<V>>) {
    forall e :: e in es ==> LastSet(ops, e.key) == Some(e.value)
  }

  /** Every entry carries the value last set for its key. */
  lemma {:induction false} CachedCarriesLastSet<V>(ops: seq<Op<V>>, maxSize: nat)
    ensures AllLastSet(Cached(ops, maxSize), ops)
  {
    if ops != [] {
      var n := |ops| - 1;
      var op := ops[n];
      var es := Cached(ops[..n], maxSize);
      CachedCarriesLastSet(ops[..n], maxSize);
      FindInKeySet(es, op.key);
      if op.SetOp? {
        BumpMembers(es, op.key, op.value, maxSize);
      } else if Find(es, op.key).Some? {
        BumpMembers(es, op.key, Find(es, op.key).value, maxSize);
      }
      var after := Cached(ops, maxSize);
      forall e | e in after ensures LastSet(ops, e.key) == Some(e.value) {
        if e.key != op.key || op.GetOp? { assert e in es; }
      }
    }
  }

  /** Moving a held entry to the end never exceeds the cap. */
  lemma {:induction false} HitFits<V>(es: seq<Entry<V>>, k: string, v: V, maxSize: nat)
    requires UniqueKeys(es) && |es| <= maxSize
    ensures k in KeySet(es) ==> Cap(Bump(es, k, v), maxSize) == Bump(es, k, v)
  {
    if k in KeySet(es) {
      WithoutKeys(es, k);
      UniqueSize(es);
      UniqueSize(Without(es, k));
    }
  }

  /** The embedding cache holds exactly the keys set or hit with fewer than maxSize distinct other
      keys set or hit since, each with the value last set for it. */
  lemma {:induction false} EmbeddingCacheIsLru<V>(ops: seq<Op<V>>, maxSize: nat, k: string)
    ensures var es, touches := Cached(ops, maxSize), Touches(ops, maxSize);
            && |es| <= maxSize
            && (Find(es, k).Some? <==> k in touches && |Since(touches, k)| < maxSize)
            && (Find(es, k).Some? ==> Find(es, k) == LastSet(ops, k))
  {
    CachedTracks(ops, maxSize);
    CachedCarriesLastSet(ops, maxSize);
    FateOfTouches(Touches(ops, maxSize), k, maxSize);
    FindInKeySet(Cached(ops, maxSize), k);
  }

  /* -------------------------------- the working set ---------------------------- */

  /** A working-set entry: the cached candidate and its hit counter. */
  datatype Held<C> = Held(candidate: C, hits: nat)

  function WsAdd<C>(es: seq<Entry<Held<C>>>, id: string, c: C, maxSize: nat): seq<Entry<Held<C>>> {
    match Find(es, id)
    case Some(h) => Bump(es, id, h.(candidate := c))
    case None => Cap(es + [Entry(id, Held(c, 0))], maxSize)
  }

  function WsTouch<C>(es: seq<Entry<Held<C>>>, id: string): seq<Entry<Held<C>>> {
    match Find(es, id)
    case None => es
    case Some(h) => Bump(es, id, h.(hits := h.hits + 1))
  }

  class WorkingSet<C> {
    const maxSize: nat
    var entries: seq<Entry<Held<C>>>
    var profilesPrimed: bool
    ghost var log: seq<Use>

    ghost predicate Valid()
      reads this
    {
      Tracks(entries, log, maxSize)
    }

    constructor (maxSize: nat)
      ensures Valid() && this.maxSize == maxSize && entries == [] && !profilesPrimed && log == []
    {
      this.maxSize, entries, profilesPrimed, log := maxSize, [], false, [];
    }

    /** Afterwards the entries are again the least-recently-used cache of the longer log. */
    method Add(id: string, c: C)
      requires Valid()
      modifies `entries, `log
      ensures Valid() && log == old(log) + [Used(id)]
      ensures entries == WsAdd(old(entries), id, c, maxSize)
    {
      var existing := Find(entries, id);
      if existing.Some? {
        MoveToEnd(id, Held(c, existing.value.hits));
        return;
      }
      FindInKeySet(entries, id);
      UseTracks(entries, log, id, Held(c, 0), maxSize);
      WithoutAbsent(entries, id);
      entries := entries + [Entry(id, Held(c, 0))];
      if |entries| > maxSize {
        entries := entries[1..];
      }
      log := log + [Used(id)];
    }

    /** Delete and insert again: the entry becomes the most recent. */
    method MoveToEnd(id: string, h: Held<C>)
      requires Valid() && Find(entries, id).Some?
      modifies `entries, `log
      ensures Valid() && log == old(log) + [Used(id)] && entries == Bump(old(entries), id, h)
    {
      HitTracks(entries, log, id, h, maxSize);
      entries := Without(entries, id);
      entries := entries + [Entry(id, h)];
      log := log + [Used(id)];
    }

    method Touch(id: string) returns (e: Option<Held<C>>)
      requires Valid()
      modifies `entries, `log
      ensures Valid() && entries == WsTouch(old(entries), id)
      ensures log == if e.Some? then old(log) + [Used(id)] else old(log)
      ensures e == match Find(old(entries), id) { case None => None case Some(h) => Some(h.(hits := h.hits + 1)) }
    {
      var found := Find(entries, id);
      if found.None? { return None; }
      var h := Held(found.value.candidate, found.value.hits + 1);
      MoveToEnd(id, h);
      e := Some(h);
    }

    method Evict(id: string)
      requires Valid()
      modifies `entries, `log
      ensures Valid() && log == old(log) + [Evicted(id)] && entries == Without(old(entries), id)
    {
      EvictTracks(entries, log, id, maxSize);
      entries := Without(entries, id);
      log := log + [Evicted(id)];
    }
  }

  /** The distinct other keys used after the last use of k, evicted or not; None if k was never
      used or was itself evicted since. */
  function OthersSince(log: seq<Use>, k: string): Option<set<string>> {
    if log == [] then None
    else
      var n := |log| - 1;
      var before := OthersSince(log[..n], k);
      match log[n]
      case Used(j) => if j == k then Some({}) else if before.Some? then Some(before.value + {j}) else None
      case Evicted(j) => if j == k then None else before
  }

  /** Evictions of other keys only ever help: a key used, not evicted since, and followed by fewer
      than maxSize distinct other keys is still held. */
  lemma {:induction false} WorkingSetKeepsRecent(log: seq<Use>, k: string, maxSize: nat)
    requires OthersSince(log, k).Some? && |OthersSince(log, k).value| < maxSize
    ensures Fate(log, k, maxSize).Some? && Fate(log, k, maxSize).value <= OthersSince(log, k).value
  {
    var n := |log| - 1;
    if log[n] != Used(k) {
      var before, now := OthersSince(log[..n], k).value, OthersSince(log, k).value;
      SubsetSize(before, now);
      WorkingSetKeepsRecent(log[..n], k, maxSize);
      if log[n].Used? { SubsetSize(Fate(log[..n], k, maxSize).value + {log[n].key}, now); }
    }
  }

  /* ---------------------------- the L0 answer cache ---------------------------- */

  const L0_CAP := 200
  const L0_TTL_MS := 5 * 60 * 1000

  datatype Stamped<H> = Stamped(hit: H, cachedAt: int)

  /** `map.set(k, v)` without a preceding delete: a present key keeps its place. */
  function Put<V>(es: seq<Entry<V>>, k: string, v: V): seq<Entry<V>> {
    if es == [] then [Entry(k, v)]
    else if es[0].key == k then [Entry(k, v)] + es[1..]
    else [es[0]] + Put(es[1..], k, v)
  }

  function L0Lookup<H>(es: seq<Entry<Stamped<H>>>, k: string, now: int): (seq<Entry<Stamped<H>>>, Option<H>) {
    match Find(es, k)
    case None => (es, None)
    case Some(e) => if now - e.cachedAt > L0_TTL_MS then (Without(es, k), None) else (Bump(es, k, e), Some(e.hit))
  }

  function L0Store<H>(es: seq<Entry<Stamped<H>>>, k: string, hit: H, now: int): seq<Entry<Stamped<H>>> {
    Put(if |es| >= L0_CAP then es[1..] else es, k, Stamped(hit, now))
  }

  class AnswerCache<H> {
    var entries: seq<Entry<Stamped<H>>>

    constructor ()
      ensures entries == []
    {
      entries := [];
    }

    method Get(key: string, now: int) returns (hit: Option<H>)
      modifies `entries
      ensures (entries, hit) == L0Lookup(old(entries), key, now)
    {
      var entry := Find(entries, key);
      if entry.None? { return None; }
      entries := Without(entries, key);
      if now - entry.value.cachedAt > L0_TTL_MS { return None; }
      entries := entries + [Entry(key, entry.value)];
      hit := Some(entry.value.hit);
    }

    method Set(key: string, hit: H, now: int)
      modifies `entries
      ensures entries == L0Store(old(entries), key, hit, now)
    {
      if |entries| >= L0_CAP {
        entries := entries[1..];
      }
      entries := Put(entries, key, Stamped(hit, now));
    }
  }

  function L0Key(scope: string, viewer: string, question: string): string {
    scope + "|" + viewer + "|" + question
  }

  lemma {:induction false} L0KeyDeterminesScope(scope: string, viewer: string, question: string,
                                                scope': string, viewer': string, question': string)
    requires '|' !in scope && '|' !in scope'
    requires L0Key(scope, viewer, question) == L0Key(scope', viewer', question')
    ensures scope == scope'
    ensures '|' !in viewer && '|' !in viewer' ==> viewer == viewer' && question == question'
  {
    var x, y := viewer + "|" + question, viewer' + "|" + question';
    assert L0Key(scope, viewer, question) == scope + ['|'] + x;
    assert L0Key(scope', viewer', question') == scope' + ['|'] + y;
    Strings.FirstCharSplits('|', scope, x, scope', y);
    if '|' !in viewer && '|' !in viewer' { Strings.FirstCharSplits('|', viewer, question, viewer', question'); }
  }

  /** The prechecks of any number of cycles, interleaved; cycles of one scope are serial. A cycle
      that misses here goes on to store what L1 or L2 answers, or gives up. */
  datatype Precheck<H> =
    | Lookup(scope: string, viewer: string, question: string, now: int)
    | Store(scope: string, hit: H, now: int)
    | GiveUp(scope: string)

  /** What a cycle asks for, and an answer stored for it. */
  datatype Ask = Ask(scope: string, viewer: string, question: string)
  datatype Answer<H> = Answer(ask: Ask, stamped: Stamped<H>)

  function KeyOf(a: Ask): string {
    L0Key(a.scope, a.viewer, a.question)
  }

  /** open: what each scope's running cycle has missed on. stores: every store so far. uses: the
      uses and evictions that the lookups and stores amount to. */
  datatype L0State<H> = L0State(entries: seq<Entry<Stamped<H>>>, open: map<string, Ask>,
                                stores: seq<Answer<H>>, uses: seq<Use>)

  /** Scope keys and user ids hold no bar; the question may. */
  predicate L0Enabled<H>(s: L0State<H>, e: Precheck<H>) {
    match e
    case Lookup(c, w, _, _) => c !in s.open && '|' !in c && '|' !in w
    case Store(c, _, _) => c in s.open
    case GiveUp(c) => c in s.open
  }

  function L0Step<H>(s: L0State<H>, e: Precheck<H>): L0State<H>
    requires L0Enabled(s, e)
  {
    match e
    case Lookup(c, w, q, now) =>
      var (es, hit) := L0Lookup(s.entries, L0Key(c, w, q), now);
      if hit.Some? then s.(entries := es, uses := s.uses + [Used(L0Key(c, w, q))])
      else s.(entries := es, open := s.open[c := Ask(c, w, q)], uses := s.uses + [Evicted(L0Key(c, w, q))])
    case Store(c, hit, now) =>
      s.(entries := L0Store(s.entries, KeyOf(s.open[c]), hit, now), open := s.open - {c},
         stores := s.stores + [Answer(s.open[c], Stamped(hit, now))],
         uses := s.uses + [Used(KeyOf(s.open[c]))])
    case GiveUp(c) => s.(open := s.open - {c})
  }

  /** ss are the states before and after each of the events es. */
  ghost predicate L0Run<H>(ss: seq<L0State<H>>, es: seq<Precheck<H>>) {
    && |ss| == |es| + 1 && ss[0] == L0State([], map[], [], [])
    && forall i :: 0 <= i < |es| ==> L0StepAt(ss, es, i)
  }

  ghost predicate L0StepAt<H>(ss: seq<L0State<H>>, es: seq<Precheck<H>>, i: nat)
    requires i < |es| && |ss| == |es| + 1
  {
    L0Enabled(ss[i], es[i]) && ss[i + 1] == L0Step(ss[i], es[i])
  }

  ghost predicate Stored<H>(e: Entry<Stamped<H>>, stores: seq<Answer<H>>) {
    exists i :: 0 <= i < |stores| && KeyOf(stores[i].ask) == e.key && stores[i].stamped == e.value
  }

  ghost predicate AllStored<H>(es: seq<Entry<Stamped<H>>>, stores: seq<Answer<H>>) {
    forall e :: e in es ==> Stored(e, stores)
  }

  /** What is open was missed: no open key is held, and its parts are bar-free. */
  ghost predicate OpenAbsent<H>(s: L0State<H>) {
    forall c :: c in s.open ==>
      s.open[c].scope == c && '|' !in c && '|' !in s.open[c].viewer && KeyOf(s.open[c]) !in KeySet(s.entries)
  }

  ghost predicate StoresPlain<H>(stores: seq<Answer<H>>) {
    forall i :: 0 <= i < |stores| ==> '|' !in stores[i].ask.scope && '|' !in stores[i].ask.viewer
  }

  ghost predicate L0Inv<H>(s: L0State<H>) {
    Tracks(s.entries, s.uses, L0_CAP) && OpenAbsent(s) && AllStored(s.entries, s.stores) && StoresPlain(s.stores)
  }

  lemma {:induction false} PutAbsent<V>(es: seq<Entry<V>>, k: string, v: V)
    requires k !in KeySet(es)
    ensures Put(es, k, v) == es + [Entry(k, v)]
  {
    if es != [] {
      KeySetCons(es);
      PutAbsent(es[1..], k, v);
    }
  }

  lemma {:induction false} StoreAbsentIsBump<H>(es: seq<Entry<Stamped<H>>>, k: string, hit: H, now: int)
    requires UniqueKeys(es) && |es| <= L0_CAP && k !in KeySet(es)
    ensures L0Store(es, k, hit, now) == Cap(Bump(es, k, Stamped(hit, now)), L0_CAP)
  {
    WithoutAbsent(es, k);
    if es != [] { KeySetCons(es); }
    PutAbsent(if |es| >= L0_CAP then es[1..] else es, k, Stamped(hit, now));
  }

  /** Keys of different scopes differ, so adding one key leaves the open ones of other scopes absent. */
  lemma {:induction false} OpenStaysAbsent<H>(s: L0State<H>, t: L0State<H>, a: Ask)
    requires OpenAbsent(s) && '|' !in a.scope
    requires KeySet(t.entries) <= KeySet(s.entries) + {KeyOf(a)}
    requires t.open == s.open - {a.scope}
    ensures OpenAbsent(t)
  {
    forall c | c in t.open ensures KeyOf(t.open[c]) != KeyOf(a) {
      var o := t.open[c];
      if KeyOf(o) == KeyOf(a) {
        L0KeyDeterminesScope(o.scope, o.viewer, o.question, a.scope, a.viewer, a.question);
        assert false;
      }
    }
  }

  lemma {:induction false} LookupKeeps<H>(s: L0State<H>, c: string, w: string, q: string, now: int)
    requires L0Inv(s) && L0Enabled(s, Lookup(c, w, q, now))
    ensures L0Inv(L0Step(s, Lookup(c, w, q, now)))
  {
    var k := L0Key(c, w, q);
    FindInKeySet(s.entries, k);
    if L0Lookup(s.entries, k, now).1.Some? {
      HitKeeps(s, k, Find(s.entries, k).value);
    } else {
      if Find(s.entries, k).None? { WithoutAbsent(s.entries, k); }
      MissKeeps(s, Ask(c, w, q));
    }
  }

  lemma {:induction false} HitKeeps<H>(s: L0State<H>, k: string, st: Stamped<H>)
    requires L0Inv(s) && Find(s.entries, k) == Some(st)
    ensures L0Inv(s.(entries := Bump(s.entries, k, st), uses := s.uses + [Used(k)]))
  {
    FindInKeySet(s.entries, k);
    UseTracks(s.entries, s.uses, k, st, L0_CAP);
    HitFits(s.entries, k, st, L0_CAP);
    WithoutKeys(s.entries, k);
    KeySetSnoc(Without(s.entries, k), Entry(k, st));
    BumpMembers(s.entries, k, st, L0_CAP);
  }

  lemma {:induction false} MissKeeps<H>(s: L0State<H>, a: Ask)
    requires L0Inv(s) && '|' !in a.scope && '|' !in a.viewer
    ensures L0Inv(s.(entries := Without(s.entries, KeyOf(a)), open := s.open[a.scope := a],
                     uses := s.uses + [Evicted(KeyOf(a))]))
  {
    var t := s.(entries := Without(s.entries, KeyOf(a)), open := s.open[a.scope := a],
                uses := s.uses + [Evicted(KeyOf(a))]);
    EvictTracks(s.entries, s.uses, KeyOf(a), L0_CAP);
    WithoutKeys(s.entries, KeyOf(a));
    assert OpenAbsent(t);
    forall e | e in t.entries ensures Stored(e, s.stores) { assert e in s.entries; }
  }

  lemma {:induction false} StoreKeeps<H>(s: L0State<H>, c: string, hit: H, now: int)
    requires L0Inv(s) && L0Enabled(s, Store(c, hit, now))
    ensures L0Inv(L0Step(s, Store(c, hit, now)))
  {
    var t := L0Step(s, Store(c, hit, now));
    var k, st := KeyOf(s.open[c]), Stamped(hit, now);
    StoreAbsentIsBump(s.entries, k, hit, now);
    UseTracks(s.entries, s.uses, k, st, L0_CAP);
    BumpMembers(s.entries, k, st, L0_CAP);
    assert KeySet(t.entries) <= KeySet(s.entries) + {k};
    OpenStaysAbsent(s, t, s.open[c]);
    StoringKeeps(s.entries, t.entries, s.stores, Answer(s.open[c], st));
  }

  lemma {:induction false} StoringKeeps<H>(es: seq<Entry<Stamped<H>>>, after: seq<Entry<Stamped<H>>>,
                                           stores: seq<Answer<H>>, a: Answer<H>)
    requires AllStored(es, stores)
    requires forall e :: e in after ==> e == Entry(KeyOf(a.ask), a.stamped) || e in es
    ensures AllStored(after, stores + [a])
  {
    var now := stores + [a];
    forall e | e in after ensures Stored(e, now) {
      if e in es {
        assert Stored(e, stores);
        var i :| 0 <= i < |stores| && KeyOf(stores[i].ask) == e.key && stores[i].stamped == e.value;
        assert now[i] == stores[i];
      } else {
        assert now[|stores|] == a;
      }
    }
  }

  lemma {:induction false} L0RunKeeps<H>(ss: seq<L0State<H>>, es: seq<Precheck<H>>, n: nat)
    requires L0Run(ss, es) && n <= |es|
    ensures L0Inv(ss[n])
  {
    if n == 0 {
      assert KeySet<Stamped<H>>([]) == {};
    } else {
      L0RunKeeps(ss, es, n - 1);
      assert L0StepAt(ss, es, n - 1);
      match es[n - 1]
      case Lookup(c, w, q, now) => LookupKeeps(ss[n - 1], c, w, q, now);
      case Store(c, hit, now) => StoreKeeps(ss[n - 1], c, hit, now);
      case GiveUp(c) =>
    }
  }

  /** An answer stored for this very question by this very viewer in this very scope, at most five
      minutes ago. */
  ghost predicate FreshStoreOf<H>(s: L0State<H>, ask: Ask, hit: H, now: int) {
    exists i :: 0 <= i < |s.stores| && s.stores[i].ask == ask
                && s.stores[i].stamped.hit == hit && now - s.stores[i].stamped.cachedAt <= L0_TTL_MS
  }

  /** Over any interleaving of prechecks the cache is strictly least-recently-used and within its
      cap, a store always finds its key absent, and a hit returns an answer stored for the same
      scope, viewer and question no more than five minutes earlier, however often hit in between. */
  lemma {:induction false} L0HitsAreFreshStores<H>(ss: seq<L0State<H>>, es: seq<Precheck<H>>, n: nat, ask: Ask, now: int)
    requires L0Run(ss, es) && n <= |es| && '|' !in ask.scope && '|' !in ask.viewer
    ensures var s := ss[n];
            && |s.entries| <= L0_CAP && Tracks(s.entries, s.uses, L0_CAP)
            && (forall c :: c in s.open ==> Find(s.entries, KeyOf(s.open[c])).None?)
            && var hit := L0Lookup(s.entries, KeyOf(ask), now).1;
               hit.Some? ==> FreshStoreOf(s, ask, hit.value, now)
  {
    L0RunKeeps(ss, es, n);
    var s := ss[n];
    forall c | c in s.open ensures Find(s.entries, KeyOf(s.open[c])).None? {
      FindInKeySet(s.entries, KeyOf(s.open[c]));
    }
    FindInKeySet(s.entries, KeyOf(ask));
    if L0Lookup(s.entries, KeyOf(ask), now).1.Some? {
      var e := Entry(KeyOf(ask), Find(s.entries, KeyOf(ask)).value);
      assert Stored(e, s.stores);
      var i :| 0 <= i < |s.stores| && KeyOf(s.stores[i].ask) == e.key && s.stores[i].stamped == e.value;
      var was := s.stores[i].ask;
      L0KeyDeterminesScope(was.scope, was.viewer, was.question, ask.scope, ask.viewer, ask.question);
    }
  }
}
