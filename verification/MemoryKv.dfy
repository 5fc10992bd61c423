// The worker's key-value store with expiry (the in-memory shim of kvFor).
module Kv {
  import opened Wrappers

  datatype Entry<+V> = Entry(value: V, exp: Option<int>)

  // An entry is dead once its expiry lies in the past; no expiry, or 0, means never.
  predicate Live<V>(e: Entry<V>, now: int) { e.exp.None? || e.exp.value == 0 || e.exp.value >= now }

  // What a reader at time `now` can see.
  function Visible<V>(store: map<string, Entry<V>>, now: int): map<string, V> {
    map k | k in store && Live(store[k], now) :: store[k].value
  }

  // Reading a key drops its entry if that is dead.
  function Swept<V>(store: map<string, Entry<V>>, key: string, now: int): map<string, Entry<V>> {
    if key in store && !Live(store[key], now) then store - {key} else store
  }

  // The expiry that a time to live of so many seconds gives; 0 gives none.
  function ExpiryAfter(ttl: Option<int>, now: int): Option<int> {
    if ttl.Some? && ttl.value != 0 then Some(now + ttl.value) else None
  }

  predicate DistinctKeys(ks: seq<string>) {
    forall i, j :: 0 <= i < j < |ks| ==> ks[i] != ks[j]
  }

  function Elements(ks: seq<string>): set<string> { set k | k in ks }

  function PrefixKeys<V>(m: map<string, V>, prefix: string): set<string> {
    set k | k in m && prefix <= k
  }

  class MemoryKv<V> {
    var store: map<string, Entry<V>>

    constructor ()
      ensures store == map[]
    {
      store := map[];
    }

    method Get(key: string, now: int) returns (v: Option<V>)
      modifies this
      ensures v == if key in Visible(old(store), now) then Some(Visible(old(store), now)[key]) else None
      ensures store == Swept(old(store), key, now)
      ensures forall t :: t >= now ==> Visible(store, t) == Visible(old(store), t)
    {
      if key !in store { return None; }
      if !Live(store[key], now) {
        store := store - {key};
        return None;
      }
      return Some(store[key].value);
    }

    method Put(key: string, value: V, ttl: Option<int>, now: int)
      modifies this
      ensures store == old(store)[key := Entry(value, ExpiryAfter(ttl, now))]
    {
      var exp: Option<int> := None;
      if ttl.Some? && ttl.value != 0 { exp := Some(now + ttl.value); }
      store := store[key := Entry(value, exp)];
    }

    method Delete(key: string)
      modifies this
      ensures store == old(store) - {key}
    {
      store := store - {key};
    }

    // The first `limit` live keys with a prefix, in an unspecified order.
    method List(prefix: string, limit: nat, now: int) returns (keys: seq<string>)
      modifies this
      ensures forall t :: t >= now ==> Visible(store, t) == Visible(old(store), t)
      ensures DistinctKeys(keys) && forall k :: k in keys ==> k in PrefixKeys(Visible(old(store), now), prefix)
      ensures |keys| <= limit
      ensures |keys| < limit ==> forall k :: k in PrefixKeys(Visible(old(store), now), prefix) ==> k in keys
    {
      ghost var was := store;
      var filtered: seq<string> := [];
      var todo := store.Keys;
      while todo != {}
        invariant todo <= was.Keys
        invariant forall k :: k in was && (k in todo || Live(was[k], now)) ==> k in store
        invariant forall k :: k in store ==> k in was && store[k] == was[k]
        invariant DistinctKeys(filtered) && forall k :: k in filtered ==> k !in todo
        invariant forall k :: k in was.Keys - todo ==> (k in filtered <==> k in PrefixKeys(Visible(was, now), prefix))
        invariant forall k :: k in filtered ==> k in was
        decreases todo
      {
        var k :| k in todo;
        todo := todo - {k};
        if prefix <= k {
          if Live(store[k], now) {
            filtered := filtered + [k];
          } else {
            store := store - {k};
          }
        }
      }
      keys := if |filtered| <= limit then filtered else filtered[..limit];
      forall t | t >= now ensures Visible(store, t) == Visible(was, t) {
        assert forall k :: k in was && Live(was[k], t) ==> Live(was[k], now);
      }
    }
  }
}
