/** The bounded, expiring cache of tree walks that concurrent evaluations share. Lookups and
    stores are the two critical sections; the walk between them runs without the lock. */
module DmarcCache {
  import opened GoStrings
  import opened DmarcTree

  const TTL_SECONDS: int := 300
  const CACHE_LIMIT: nat := 1024

  datatype Cached = Cached(walk: Walk, expires: int)
  datatype Cache = Cache(entries: map<Domain, Cached>, order: seq<Domain>)

  const EMPTY := Cache(map[], [])

  function LookupWalk(c: Cache, now: int, d: Domain): Option<Walk> {
    if d in c.entries && now < c.entries[d].expires then Some(c.entries[d].walk) else None
  }

  function EvictOldest(c: Cache): Cache {
    if |c.entries| >= CACHE_LIMIT && |c.order| > 0
    then Cache(c.entries - {c.order[0]}, c.order[1..])
    else c
  }

  function StoreWalk(c: Cache, now: int, d: Domain, w: Walk): Cache {
    if w.WalkFailed? then c
    else
      var e := EvictOldest(c);
      Cache(e.entries[d := Cached(w, now + TTL_SECONDS)], if d in e.entries then e.order else e.order + [d])
  }

  // ---- Every interleaving ----

  /** One caller's store: the walk it computed and the time it started. */
  datatype Store = Store(now: int, domain: Domain, walk: Walk)

  function Run(stores: seq<Store>): Cache {
    if stores == [] then EMPTY
    else
      var s := stores[|stores| - 1];
      StoreWalk(Run(stores[..|stores| - 1]), s.now, s.domain, s.walk)
  }

  /** A list of exactly these keys, once each. */
  ghost predicate Lists<K(!new)>(order: seq<K>, keys: set<K>) {
    && (forall i, j :: 0 <= i < j < |order| ==> order[i] != order[j])
    && (forall k :: k in order <==> k in keys)
    && |order| == |keys|
  }

  lemma ListsTail<K(!new)>(order: seq<K>, keys: set<K>)
    requires Lists(order, keys) && order != []
    ensures order[0] in keys && Lists(order[1..], keys - {order[0]})
  {
    assert order == [order[0]] + order[1..];
    forall k | k in order[1..] ensures k != order[0] && k in order {}
  }

  lemma ListsSnoc<K(!new)>(order: seq<K>, keys: set<K>, k: K)
    requires Lists(order, keys) && k !in keys
    ensures Lists(order + [k], keys + {k})
  {
  }

  /** The order list holds exactly the keys, once each, and there are at most 1024. */
  ghost predicate Consistent(c: Cache) {
    Lists(c.order, c.entries.Keys) && |c.entries| <= CACHE_LIMIT
  }

  lemma EvictKeeps(c: Cache)
    requires Consistent(c)
    ensures Consistent(EvictOldest(c)) && |EvictOldest(c).entries| < CACHE_LIMIT
    ensures forall d :: d in EvictOldest(c).entries ==> d in c.entries && EvictOldest(c).entries[d] == c.entries[d]
  {
    if |c.entries| >= CACHE_LIMIT {
      ListsTail(c.order, c.entries.Keys);
      assert (c.entries - {c.order[0]}).Keys == c.entries.Keys - {c.order[0]};
    }
  }

  lemma StoreKeeps(c: Cache, now: int, d: Domain, w: Walk)
    requires Consistent(c)
    ensures Consistent(StoreWalk(c, now, d, w))
  {
    if w.Walked? {
      EvictKeeps(c);
      InsertKeeps(EvictOldest(c), d, Cached(w, now + TTL_SECONDS));
    }
  }

  lemma InsertKeeps(e: Cache, d: Domain, v: Cached)
    requires Consistent(e) && |e.entries| < CACHE_LIMIT
    ensures Consistent(Cache(e.entries[d := v], if d in e.entries then e.order else e.order + [d]))
  {
    var keys := e.entries.Keys;
    assert e.entries[d := v].Keys == keys + {d};
    if d in keys {
      assert keys + {d} == keys;
    } else {
      ListsSnoc(e.order, keys, d);
    }
  }

  lemma {:induction false} RunConsistent(stores: seq<Store>)
    ensures Consistent(Run(stores)) && |Run(stores).entries| <= 1024
  {
    if stores != [] {
      var s := stores[|stores| - 1];
      RunConsistent(stores[..|stores| - 1]);
      StoreKeeps(Run(stores[..|stores| - 1]), s.now, s.domain, s.walk);
    }
  }

  /** Every entry was put there by the last successful store of its name. */
  ghost predicate FromLastStore(stores: seq<Store>, d: Domain, e: Cached) {
    exists i :: 0 <= i < |stores|
      && stores[i] == Store(e.expires - TTL_SECONDS, d, e.walk) && e.walk.Walked?
      && forall j :: i < j < |stores| && stores[j].domain == d ==> stores[j].walk.WalkFailed?
  }

  lemma StoreEntry(c: Cache, now: int, d: Domain, w: Walk, k: Domain)
    requires Consistent(c) && k in StoreWalk(c, now, d, w).entries
    ensures var e := StoreWalk(c, now, d, w).entries[k];
      if k == d && w.Walked? then e == Cached(w, now + TTL_SECONDS) else k in c.entries && e == c.entries[k]
  {
    EvictKeeps(c);
  }

  lemma LastStoreExtends(init: seq<Store>, s: Store, d: Domain, e: Cached)
    requires FromLastStore(init, d, e) && !(s.domain == d && s.walk.Walked?)
    ensures FromLastStore(init + [s], d, e)
  {
    var stores := init + [s];
    var i :| 0 <= i < |init| && init[i] == Store(e.expires - TTL_SECONDS, d, e.walk) && e.walk.Walked?
      && forall j :: i < j < |init| && init[j].domain == d ==> init[j].walk.WalkFailed?;
    assert stores[i] == init[i];
  }

  lemma {:induction false} EntriesFromStores(stores: seq<Store>, d: Domain)
    ensures d in Run(stores).entries ==> FromLastStore(stores, d, Run(stores).entries[d])
  {
    if stores != [] && d in Run(stores).entries {
      var init, s := stores[..|stores| - 1], stores[|stores| - 1];
      RunConsistent(init);
      StoreEntry(Run(init), s.now, s.domain, s.walk, d);
      assert stores == init + [s];
      if s.domain == d && s.walk.Walked? {
        var e := Run(stores).entries[d];
        assert stores[|stores| - 1] == Store(e.expires - TTL_SECONDS, d, e.walk);
      } else {
        EntriesFromStores(init, d);
        LastStoreExtends(init, s, d, Run(stores).entries[d]);
      }
    }
  }

  /** A served walk is the one some caller computed directly for that name, started less than five
      minutes before, and no successful store of the name came after it. Failures are never served. */
  lemma ServedIsRecent(stores: seq<Store>, now: int, d: Domain)
    requires LookupWalk(Run(stores), now, d).Some?
    ensures var w := LookupWalk(Run(stores), now, d).value;
      && w.Walked?
      && exists i :: 0 <= i < |stores| && stores[i].domain == d && stores[i].walk == w
           && now - stores[i].now < 300
           && forall j :: i < j < |stores| && stores[j].domain == d ==> stores[j].walk.WalkFailed?
  {
    EntriesFromStores(stores, d);
    var e := Run(stores).entries[d];
    var i :| 0 <= i < |stores| && stores[i] == Store(e.expires - TTL_SECONDS, d, e.walk) && e.walk.Walked?
      && forall j :: i < j < |stores| && stores[j].domain == d ==> stores[j].walk.WalkFailed?;
  }

  // ---- The evaluator's fields ----

  class Evaluator {
    var cache: map<Domain, Cached>
    var order: seq<Domain>

    constructor ()
      ensures State() == EMPTY
    {
      cache, order := map[], [];
    }

    function State(): Cache
      reads this
    {
      Cache(cache, order)
    }

    method LookupCached(now: int, d: Domain) returns (hit: Option<Walk>)
      ensures hit == LookupWalk(State(), now, d)
    {
      if d in cache && now < cache[d].expires {
        return Some(cache[d].walk);
      }
      hit := None;
    }

    method StoreCached(now: int, d: Domain, w: Walk)
      requires w.Walked?
      modifies this
      ensures State() == StoreWalk(old(State()), now, d, w)
    {
      if |cache| >= CACHE_LIMIT && |order| > 0 {
        cache := cache - {order[0]};
        order := order[1..];
      }
      if d !in cache {
        order := order + [d];
      }
      cache := cache[d := Cached(w, now + TTL_SECONDS)];
    }

    /** The whole walk when nobody else runs in between. */
    method CachedWalk(ps: Domain -> nat, lookup: Domain -> Lookup, now: int, d: Domain) returns (w: Walk)
      requires d != [] ==> 1 <= ps(d) <= |d|
      modifies this
      ensures LookupWalk(old(State()), now, d).Some? ==>
        Some(w) == LookupWalk(old(State()), now, d) && State() == old(State())
      ensures LookupWalk(old(State()), now, d).None? ==>
        w == WalkTree(ps, lookup, d) && State() == StoreWalk(old(State()), now, d, w)
    {
      var hit := LookupCached(now, d);
      if hit.Some? {
        return hit.value;
      }
      w := WalkDMARCTree(ps, lookup, d);
      if w.Walked? {
        StoreCached(now, d, w);
      }
    }
  }
}
