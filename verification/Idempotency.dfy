// The registry's cache of responses by request.
module Idempotency {
  import opened Wrappers
  import opened TtlStore

  type Response = string

  datatype Cached = Cached(resp: Response, recordedAt: int)

  type Cache = map<string, Item<Cached>>

  // All entries have the same lifetime, so the oldest record is the first to expire.
  predicate SameLife(c: Cache, ttl: int) { forall k :: k in c ==> c[k].exp == c[k].value.recordedAt + ttl }

  class Idem {
    const ttl: int
    const maxEntries: nat
    var store: Cache

    ghost predicate Valid() reads this { SameLife(store, ttl) }

    constructor (ttl: int, maxEntries: nat)
      ensures this.ttl == ttl && this.maxEntries == maxEntries && store == map[] && Valid()
    {
      this.ttl, this.maxEntries, store := ttl, maxEntries, map[];
    }

    method Prune(now: int)
      requires Valid()
      modifies this
      ensures Valid() && Pruned(old(store), store, maxEntries, now)
    {
      var count := 0;
      var todo := store.Keys;
      ghost var was := store;
      while todo != {}
        invariant todo <= was.Keys
        invariant store == map k | k in was && (k in todo || was[k].exp >= now) :: was[k]
        invariant count + |todo| == |store.Keys|
        decreases todo
      {
        ghost var s := store;
        var k :| k in todo;
        todo := todo - {k};
        if store[k].exp < now {
          store := store - {k};
          assert store.Keys == s.Keys - {k};
        } else {
          count := count + 1;
        }
      }
      assert store == Unexpired(was, now) && store.Keys == LiveKeys(was, now);
      if count > maxEntries {
        var oldest := FindOldest();
        store := store - {oldest};
      }
    }

    method FindOldest() returns (oldest: string)
      requires Valid() && store != map[]
      ensures Oldest(store, oldest)
    {
      var todo := store.Keys;
      oldest :| oldest in todo;
      todo := todo - {oldest};
      while todo != {}
        invariant todo <= store.Keys && oldest in store
        invariant forall k :: k in store && k !in todo ==> store[oldest].value.recordedAt <= store[k].value.recordedAt
        decreases todo
      {
        var k :| k in todo;
        if store[k].value.recordedAt < store[oldest].value.recordedAt { oldest := k; }
        todo := todo - {k};
      }
    }

    method Lookup(requestId: string, now: int) returns (r: Option<Response>)
      requires Valid()
      modifies this
      ensures Valid() && Pruned(old(store), store, maxEntries, now)
      ensures r == if requestId in store then Some(store[requestId].value.resp) else None
    {
      Prune(now);
      r := if requestId in store then Some(store[requestId].value.resp) else None;
    }

    method Record(requestId: string, resp: Response, now: int)
      requires Valid()
      modifies this
      ensures Valid() && exists p :: Pruned(old(store), p, maxEntries, now) &&
                                     store == p[requestId := Item(Cached(resp, now), now + ttl)]
    {
      Prune(now);
      ghost var p := store;
      store := store[requestId := Item(Cached(resp, now), now + ttl)];
      assert Pruned(old(store), p, maxEntries, now);
    }
  }
}
