// A bounded store with expiry, as the registry's nonce memory and its cache of
// responses both are: pruning drops what has expired and then, if too many
// entries are left, one of the oldest.  Which of several equally old entries goes
// depends on the iteration order of a table, so it is left open here.
module TtlStore {
  import opened Wrappers

  datatype Item<+V> = Item(value: V, exp: int)

  function Unexpired<V>(s: map<string, Item<V>>, now: int): map<string, Item<V>> {
    map k | k in s && s[k].exp >= now :: s[k]
  }

  function LiveKeys<V>(s: map<string, Item<V>>, now: int): set<string> { set k | k in s && now <= s[k].exp }

  predicate Oldest<V>(s: map<string, Item<V>>, k: string) {
    k in s && forall j :: j in s ==> s[k].exp <= s[j].exp
  }

  // t is a possible result of pruning s.
  ghost predicate Pruned<V>(s: map<string, Item<V>>, t: map<string, Item<V>>, max: nat, now: int) {
    var live := Unexpired(s, now);
    if |LiveKeys(s, now)| <= max then t == live else exists k :: Oldest(live, k) && t == live - {k}
  }

  // An insertion, for the record.
  datatype Put<+V> = Put(key: string, item: Item<V>)

  // How many insertions were made that expire at e or later.
  function Since<V>(log: seq<Put<V>>, e: int): nat {
    if log == [] then 0
    else Since(log[..|log| - 1], e) + if log[|log| - 1].item.exp >= e then 1 else 0
  }

  // So many insertions as old or younger that one of that age may have been evicted.
  predicate Crowded<V>(max: nat, log: seq<Put<V>>, e: int) { Since(log, e) > max }

  predicate Logged<V(==)>(s: map<string, Item<V>>, log: seq<Put<V>>) {
    forall k :: k in s ==> Put(k, s[k]) in log
  }

  // What was inserted is still there, or it has expired, or others crowded it out.
  predicate Remembers<V(==)>(max: nat, now: int, s: map<string, Item<V>>, log: seq<Put<V>>) {
    forall p :: p in log ==>
      (p.key in s && s[p.key] == p.item) || p.item.exp < now || Crowded(max, log, p.item.exp)
  }

  predicate Faithful<V(==)>(max: nat, now: int, s: map<string, Item<V>>, log: seq<Put<V>>) {
    Logged(s, log) && Remembers(max, now, s, log)
  }

  ghost function KeysSince<V>(log: seq<Put<V>>, e: int): set<string> {
    set p | p in log && p.item.exp >= e :: p.key
  }

  lemma {:induction false} KeysSinceSize<V>(log: seq<Put<V>>, e: int)
    ensures |KeysSince(log, e)| <= Since(log, e)
  {
    if log != [] {
      var n := |log| - 1;
      KeysSinceSize(log[..n], e);
      assert log == log[..n] + [log[n]];
      assert KeysSince(log, e) == KeysSince(log[..n], e) + if log[n].item.exp >= e then {log[n].key} else {};
    }
  }

  lemma {:induction false} SinceAtMost<V>(log: seq<Put<V>>, e: int)
    ensures Since(log, e) <= |log|
  {
    if log != [] { SinceAtMost(log[..|log| - 1], e); }
  }

  lemma {:induction false} SinceLonger<V>(log: seq<Put<V>>, p: Put<V>, e: int)
    ensures Since(log + [p], e) >= Since(log, e)
  {
    assert (log + [p])[..|log|] == log;
  }

  // An entry is evicted only in a crowd.
  lemma {:induction false} EvictionNeedsCrowd<V>(max: nat, s: map<string, Item<V>>, log: seq<Put<V>>, k: string)
    requires Logged(s, log) && Oldest(s, k) && |s.Keys| > max
    ensures Crowded(max, log, s[k].exp)
  {
    SubsetSize(s.Keys, KeysSince(log, s[k].exp));
    KeysSinceSize(log, s[k].exp);
  }

  lemma {:induction false} PruneKeepsFaithful<V>(max: nat, now: int, s: map<string, Item<V>>,
                                                       t: map<string, Item<V>>, log: seq<Put<V>>)
    requires Faithful(max, now, s, log) && Pruned(s, t, max, now)
    ensures Faithful(max, now, t, log)
  {
    var live := Unexpired(s, now);
    assert Logged(live, log) && live.Keys == LiveKeys(s, now);
    if |live.Keys| > max {
      var k :| Oldest(live, k) && t == live - {k};
      EvictionNeedsCrowd(max, live, log, k);
    }
  }

  lemma {:induction false} PutKeepsFaithful<V>(max: nat, now: int, s: map<string, Item<V>>, log: seq<Put<V>>, x: Put<V>)
    requires Faithful(max, now, s, log) && x.key !in s
    ensures Faithful(max, now, s[x.key := x.item], log + [x])
  {
    forall p | p in log && Crowded(max, log, p.item.exp) ensures Crowded(max, log + [x], p.item.exp) {
      SinceLonger(log, x, p.item.exp);
    }
  }

  // An entry that is alive and not crowded survives pruning.
  lemma {:induction false} PruningKeeps<V>(s: map<string, Item<V>>, t: map<string, Item<V>>, max: nat, now: int,
      log: seq<Put<V>>, n: string)
    requires Pruned(s, t, max, now) && Logged(s, log) && n in s && s[n].exp >= now && !Crowded(max, log, s[n].exp)
    ensures n in t && t[n] == s[n]
  {
    var live := Unexpired(s, now);
    assert live.Keys == LiveKeys(s, now);
    if |live.Keys| > max {
      var k :| Oldest(live, k) && t == live - {k};
      EvictionNeedsCrowd(max, live, log, k);
    }
  }

  lemma PrunedIsLive<V>(s: map<string, Item<V>>, t: map<string, Item<V>>, max: nat, now: int, n: string)
    requires Pruned(s, t, max, now) && n in t
    ensures n in s && t[n] == s[n] && t[n].exp >= now
  {
    var live := Unexpired(s, now);
    if |LiveKeys(s, now)| > max { var k :| Oldest(live, k) && t == live - {k}; }
  }

  lemma PrunedSize<V>(s: map<string, Item<V>>, t: map<string, Item<V>>, max: nat, now: int)
    requires Pruned(s, t, max, now) && |s.Keys| <= max + 1
    ensures |t.Keys| <= max
  {
    var live := Unexpired(s, now);
    assert live.Keys == LiveKeys(s, now);
    SubsetSize(live.Keys, s.Keys);
    if |live.Keys| > max {
      var k :| Oldest(live, k) && t == live - {k};
      assert t.Keys == live.Keys - {k};
    }
  }

  lemma NothingToPrune<V>(s: map<string, Item<V>>, max: nat, now: int)
    requires |s.Keys| <= max && forall k :: k in s ==> s[k].exp >= now
    ensures Pruned(s, s, max, now)
  {
    assert Unexpired(s, now) == s && LiveKeys(s, now) == s.Keys;
  }

  lemma OneTooMany<V>(s: map<string, Item<V>>, k: string, max: nat, now: int)
    requires |s.Keys| > max && Oldest(s, k) && forall j :: j in s ==> s[j].exp >= now
    ensures Pruned(s, s - {k}, max, now)
  {
    assert Unexpired(s, now) == s && LiveKeys(s, now) == s.Keys;
  }
}
