// The /forget endpoint: erase a subject's envelopes and replay markers, and
// clear the locks that those markers index.
module Forget {
  import opened Wrappers
  import opened Kv
  import R = ReplayLocks

  function InboxPrefix(subject: string): string { subject + ":" }
  function ReplayPrefix(subject: string): string { "replay:" + subject + ":" }
  function ReplayKey(subject: string, nonce: string): string { ReplayPrefix(subject) + nonce }

  // What /forget removes from a store, and the lock keys that it finds there.
  function Erased(m: map<string, string>, subject: string): set<string> {
    PrefixKeys(m, InboxPrefix(subject)) + PrefixKeys(m, ReplayPrefix(subject))
  }

  // Live locks all have their marker in KV (for locks of finished winners this
  // is what the replay protocol keeps).
  ghost predicate Indexed(locks: map<string, int>, m: map<string, string>, prefix: string, now: int) {
    forall k :: k in locks && prefix <= k && locks[k] > now ==> k in m
  }

  datatype Outcome = Done(deleted: nat, replayDeleted: nat) | Overflow(deleted: nat, replayDeleted: nat)

  class Worker {
    const kv: MemoryKv<string>
    var locks: map<string, int>     // one lock object per replay key, by its expiry

    constructor (kv: MemoryKv<string>)
      ensures this.kv == kv && locks == map[]
    {
      this.kv := kv;
      locks := map[];
    }

    method DeleteKeys(keys: seq<string>)
      modifies kv
      ensures kv.store == old(kv.store) - Elements(keys)
    {
      for i := 0 to |keys|
        invariant kv.store == old(kv.store) - Elements(keys[..i])
      {
        assert Elements(keys[..i + 1]) == Elements(keys[..i]) + {keys[i]};
        kv.Delete(keys[i]);
      }
      assert keys[..|keys|] == keys;
    }

    // A failed clear is counted and swallowed; `fails` names the keys it hits.
    method ForgetReplayLocks(keys: seq<string>, fails: set<string>)
      modifies this`locks
      ensures locks == old(locks) - (Elements(keys) - fails)
    {
      for i := 0 to |keys|
        invariant locks == old(locks) - (Elements(keys[..i]) - fails)
      {
        assert Elements(keys[..i + 1]) == Elements(keys[..i]) + {keys[i]};
        if keys[i] !in fails { locks := locks - {keys[i]}; }
      }
      assert keys[..|keys|] == keys;
    }

    method Forget(subject: string, maxKeys: nat, now: int, fails: set<string>) returns (r: Outcome)
      modifies this`locks, kv
      ensures ForgetSpec(Visible(old(kv.store), now), old(locks), Visible(kv.store, now), locks,
                         subject, maxKeys, fails, r)
      // when the markers index the locks and no clear fails, no live lock of the subject is left
      ensures r.Done? && fails == {} && Indexed(old(locks), Visible(old(kv.store), now), ReplayPrefix(subject), now) ==>
        forall k :: k in locks && ReplayPrefix(subject) <= k ==> locks[k] <= now
    {
      ghost var seen := Visible(kv.store, now);
      var list := kv.List(InboxPrefix(subject), maxKeys + 1, now);
      var replayList := kv.List(ReplayPrefix(subject), maxKeys + 1, now);
      ghost var store := kv.store;
      assert Visible(store, now) == seen;
      ListSize(list, PrefixKeys(seen, InboxPrefix(subject)), maxKeys + 1);
      ListSize(replayList, PrefixKeys(seen, ReplayPrefix(subject)), maxKeys + 1);
      var overflow := |list| > maxKeys || |replayList| > maxKeys;
      var inboxKeys := if overflow && |list| > maxKeys then list[..maxKeys] else list;
      var replayKeys := if overflow && |replayList| > maxKeys then replayList[..maxKeys] else replayList;
      DeleteKeys(inboxKeys);
      DeleteKeys(replayKeys);
      ForgetReplayLocks(replayKeys, fails);
      VisibleWithout(store, Elements(inboxKeys), Elements(replayKeys), now);
      r := if overflow then Overflow(|inboxKeys|, |replayKeys|) else Done(|inboxKeys|, |replayKeys|);
      CutList(list, inboxKeys, PrefixKeys(seen, InboxPrefix(subject)), maxKeys);
      CutList(replayList, replayKeys, PrefixKeys(seen, ReplayPrefix(subject)), maxKeys);
    }
  }

  // What a call of /forget does: in full, every visible key of the subject goes
  // and nothing else; on overflow, that many of the subject's keys and nothing else.
  ghost predicate ForgetSpec(seen: map<string, string>, locks: map<string, int>,
                             seen': map<string, string>, locks': map<string, int>,
                             subject: string, maxKeys: nat, fails: set<string>, r: Outcome)
  {
    var inbox, replay := PrefixKeys(seen, InboxPrefix(subject)), PrefixKeys(seen, ReplayPrefix(subject));
    (r.Done? <==> |inbox| <= maxKeys && |replay| <= maxKeys) &&
    r.deleted == Min(|inbox|, maxKeys) && r.replayDeleted == Min(|replay|, maxKeys) &&
    (r.Done? ==> seen' == seen - Erased(seen, subject) && locks' == locks - (replay - fails)) &&
    (r.Overflow? ==>
       exists a, b :: a <= inbox && b <= replay && |a| == r.deleted && |b| == r.replayDeleted &&
         seen' == seen - (a + b) && locks' == locks - (b - fails))
  }

  lemma VisibleWithout(store: map<string, Entry<string>>, a: set<string>, b: set<string>, now: int)
    ensures Visible(store - a - b, now) == Visible(store, now) - (a + b)
  {
  }

  lemma {:induction false} CutList(list: seq<string>, cut: seq<string>, all: set<string>, maxKeys: nat)
    requires DistinctKeys(list) && |list| == Min(|all|, maxKeys + 1) && forall k :: k in list ==> k in all
    requires cut == if |list| > maxKeys then list[..maxKeys] else list
    ensures Elements(cut) <= all && |Elements(cut)| == |cut| == Min(|all|, maxKeys)
    ensures |list| <= maxKeys ==> Elements(cut) == all
  {
    DistinctSize(cut);
    DistinctSize(list);
    SubsetSize(Elements(list), all);
  }

  lemma {:induction false} DistinctSize(ks: seq<string>)
    requires DistinctKeys(ks)
    ensures |Elements(ks)| == |ks|
  {
    if ks != [] {
      var n := |ks| - 1;
      DistinctSize(ks[..n]);
      assert Elements(ks) == Elements(ks[..n]) + {ks[n]};
      assert ks[n] !in ks[..n];
    }
  }

  lemma {:induction false} ListSize(list: seq<string>, all: set<string>, limit: nat)
    requires DistinctKeys(list) && |list| <= limit && forall k :: k in list ==> k in all
    requires |list| < limit ==> forall k :: k in all ==> k in list
    ensures |list| == Min(|all|, limit)
  {
    DistinctSize(list);
    SubsetSize(Elements(list), all);
    if |list| < limit { assert Elements(list) == all; }
  }

  // Together with the replay protocol: after any run of requests, a /forget that
  // does not overflow and whose clears succeed removes marker and lock of every
  // call that won for the subject, as long as that lock would still be live.
  lemma {:induction false} ForgetReachesWinners(ttl: int, steps: seq<R.Step>, w: nat, seen: map<string, string>,
                                                seen': map<string, string>, locks': map<string, int>,
                                                subject: string, maxKeys: nat, r: Outcome)
    requires ttl >= 1
    requires var s := R.Run(ttl, R.Init, steps);
      w < |s.log| && s.log[w].Won? && R.NotErased(s.log, w, s.log[w].key) && ReplayPrefix(subject) <= s.log[w].key &&
      (forall k :: k in s.markers && s.markers[k] >= s.now ==> k in seen) &&
      ForgetSpec(seen, s.locks, seen', locks', subject, maxKeys, {}, r) && r.Done?
    ensures var s := R.Run(ttl, R.Init, steps);
      var k := s.log[w].key;
      R.Owns(s, s.log[w].req, w, k) &&
      (s.now < s.log[s.calls[s.log[w].req].at].exp ==> k !in seen' && k !in locks')
  {
    R.LiveLockHasMarker(ttl, steps, w);
  }

  // ---------------------------------------------------------------- which keys belong to whom

  // A /forget that does not overflow and whose clears succeed takes the marker of a
  // replay key away and leaves the lock behind it.
  ghost predicate Strands(seen: map<string, string>, locks: map<string, int>, seen': map<string, string>,
                          locks': map<string, int>, subject: string, maxKeys: nat, r: Outcome, t: string, n: string) {
    var k := ReplayKey(t, n);
    ForgetSpec(seen, locks, seen', locks', subject, maxKeys, {}, r) && r.Done? &&
    k in seen && k !in seen' && k in locks'
  }

  ghost predicate CanStrand(subject: string) {
    exists seen, locks, seen', locks', maxKeys, r, t, n ::
      Strands(seen, locks, seen', locks', subject, maxKeys, r, t, n)
  }

  // This can happen for exactly the subjects whose name begins as replay keys do.
  lemma MarkersWithoutLocks(s: string)
    ensures CanStrand(s) <==> s == "replay" || "replay:" <= s
  {
    if seen, locks, seen', locks', maxKeys, r, t, n :| Strands(seen, locks, seen', locks', s, maxKeys, r, t, n) {
      assert ReplayKey(t, n) in Erased(seen, s);
      InboxOfReplay(s, ReplayKey(t, n));
    }
    if s == "replay" {
      assert InboxPrefix(s) == "replay:" && ReplayPrefix(s) == "replay:replay:" && ReplayKey("", "") == "replay::";
      OneStranded(s, "", "");
    } else if "replay:" <= s {
      assert s == "replay:" + s[7..];
      assert ReplayKey(s[7..], "") == InboxPrefix(s);
      assert |ReplayPrefix(s)| > |InboxPrefix(s)|;
      OneStranded(s, s[7..], "");
    }
  }

  // A key that the inbox prefix reaches and the replay prefix does not.
  lemma OneStranded(s: string, t: string, n: string)
    requires InboxPrefix(s) <= ReplayKey(t, n) && !(ReplayPrefix(s) <= ReplayKey(t, n))
    ensures CanStrand(s)
  {
    var k := ReplayKey(t, n);
    var seen, locks := map[k := ""], map[k := 0];
    assert PrefixKeys(seen, InboxPrefix(s)) == {k} && PrefixKeys(seen, ReplayPrefix(s)) == {};
    assert seen - Erased(seen, s) == map[] && locks - {} == locks;
    assert Strands(seen, locks, map[], locks, s, 1, Done(1, 0), t, n);
  }

  lemma InboxOfReplay(s: string, key: string)
    requires "replay:" <= key && InboxPrefix(s) <= key
    ensures s == "replay" || "replay:" <= s
  {
    var p := InboxPrefix(s);
    var q := "replay:";
    assert forall i: nat :: i < 6 ==> q[i] != ':' && q[i] == key[i];
    assert forall i: nat :: i < |p| ==> p[i] == key[i];
    assert p[|s|] == ':';
    if |s| >= 6 {
      assert forall i :: 0 <= i < 6 ==> s[i] == p[i] == key[i] == "replay:"[i];
      assert s[..6] == "replay";
      if |s| == 6 { assert s == s[..6]; } else { assert s[6] == p[6] == key[6] == "replay:"[6]; }
    }
  }

  lemma {:induction false} ColonSplit(s: string, t: string, x: string, y: string)
    requires ':' !in s && ':' !in t && s + ":" + x == t + ":" + y
    ensures s == t && x == y
  {
    var a, b := s + ":" + x, t + ":" + y;
    assert |s| > 0 ==> a[0] == s[0] && s[0] in s;
    assert |t| > 0 ==> b[0] == t[0] && t[0] in t;
    if s == [] && t == [] {
      assert a[1..] == x && b[1..] == y;
    } else if s == [] || t == [] {
      assert false;
    } else {
      assert a[1..] == s[1..] + ":" + x && b[1..] == t[1..] + ":" + y;
      ColonSplit(s[1..], t[1..], x, y);
      assert s == [s[0]] + s[1..] && t == [t[0]] + t[1..];
    }
  }

  // Replay keys tell subject and nonce apart as long as subjects have no ':'.
  lemma ReplayKeyExact(s: string, n: string, t: string, m: string)
    requires ':' !in s && ':' !in t
    ensures ReplayKey(s, n) == ReplayKey(t, m) <==> s == t && n == m
    ensures ReplayPrefix(s) <= ReplayKey(t, m) <==> s == t
  {
    var b := ReplayKey(t, m);
    assert b[7..] == t + ":" + m;
    if ReplayKey(s, n) == b {
      assert ReplayKey(s, n)[7..] == s + ":" + n;
      ColonSplit(s, t, n, m);
    }
    if ReplayPrefix(s) <= b {
      var rest := b[|ReplayPrefix(s)|..];
      assert b == ReplayKey(s, rest);
      assert ReplayKey(s, rest)[7..] == s + ":" + rest;
      ColonSplit(s, t, rest, m);
    }
  }

  // With a ':' in the subject two different pairs can share one key.
  lemma ReplayKeyCollision()
    ensures ReplayKey("a", "b:c") == ReplayKey("a:b", "c")
  {
    assert ReplayKey("a", "b:c") == "replay:a:b:c";
  }
}
