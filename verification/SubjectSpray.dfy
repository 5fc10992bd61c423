// The worker's spray guard: how many different subjects one address may use.
// Every new subject pushes the end of the counter's window back, and nothing
// ever counts down, yet the bound that results is a sliding one.
module SubjectSpray {
  import opened Wrappers
  import opened Kv
  import opened WorkerLimits

  function SubjectPrefix(ip: string): string { "rlsub:" + ip + ":" }
  function SubjectKey(ip: string, subject: string): string { SubjectPrefix(ip) + subject }
  function CounterKey(ip: string): string { "rlsubcount:" + ip }

  datatype Verdict = Known | Fresh | Refused | Off

  // The store and the verdict after one call.
  function AfterSpray(max: int, ttl: int, s: Store, ip: string, subject: string, now: int): (Store, Verdict) {
    var mark, counter := SubjectKey(ip, subject), CounterKey(ip);
    var s1 := Swept(s, mark, now);
    if mark in s1 then (s1, Known)
    else
      var s2 := Swept(s1, counter, now);
      var count := CountOf(Found(s1, counter, now), now);
      if count >= max then (s2, Refused)
      else
        var exp := ExpiryAfter(Some(ttl), now);
        (s2[mark := Entry(Mark, exp)][counter := Entry(Tally(count + 1, now + ttl), exp)], Fresh)
  }

  method SubjectSprayGuard(kv: MemoryKv<Item>, ip: string, subject: string, max: int, windowSec: int, now: int)
      returns (v: Verdict)
    modifies kv
    ensures max <= 0 ==> v == Off && kv.store == old(kv.store)
    ensures max > 0 ==> (kv.store, v) == AfterSpray(max, windowSec + 5, old(kv.store), ip, subject, now)
  {
    if max <= 0 { return Off; }
    var subjectKey, counterKey := SubjectKey(ip, subject), CounterKey(ip);
    var ttl := windowSec + 5;
    var seen := kv.Get(subjectKey, now);
    if seen.Some? { return Known; }
    var rawCnt := kv.Get(counterKey, now);
    var count := 0;
    if Open(rawCnt, now) { count := rawCnt.value.count; }
    if count >= max { return Refused; }
    kv.Put(subjectKey, Mark, Some(ttl), now);
    kv.Put(counterKey, Tally(count + 1, now + ttl), Some(ttl), now);
    v := Fresh;
  }

  lemma KeysDiffer(ip: string, other: string, subject: string)
    ensures CounterKey(ip) != SubjectKey(other, subject)
    ensures !(SubjectPrefix(ip) <= CounterKey(other))
    ensures ip != other ==> CounterKey(ip) != CounterKey(other)
  {
    assert CounterKey(ip)[5] == 'c' && CounterKey(other)[5] == 'c';
    assert SubjectKey(other, subject)[5] == ':' && SubjectPrefix(ip)[5] == ':';
    assert CounterKey(ip)[11..] == ip && CounterKey(other)[11..] == other;
  }

  // ---------------------------------------------------------------- runs of the guard

  datatype Use = Use(ip: string, subject: string, now: int)

  datatype Admission = Admission(subject: string, time: int)

  // The store and the clock between calls, and the new subjects one address was allowed.
  datatype Watch = Watch(store: Store, now: int, log: seq<Admission>)

  function Guard(max: int, ttl: int, ip: string, w: Watch, u: Use): Watch {
    var o := AfterSpray(max, ttl, w.store, u.ip, u.subject, u.now);
    Watch(o.0, u.now, if u.ip == ip && o.1 == Fresh then w.log + [Admission(u.subject, u.now)] else w.log)
  }

  function Guarded(max: int, ttl: int, ip: string, uses: seq<Use>): Watch
    decreases |uses|
  {
    if uses == [] then Watch(map[], 0, [])
    else Guard(max, ttl, ip, Guarded(max, ttl, ip, uses[..|uses| - 1]), uses[|uses| - 1])
  }

  predicate Ordered(uses: seq<Use>) {
    (forall i :: 0 <= i < |uses| ==> uses[i].now >= 0) &&
    forall i, j :: 0 <= i < j < |uses| ==> uses[i].now <= uses[j].now
  }

  predicate Timed(now: int, log: seq<Admission>) {
    (forall i :: 0 <= i < |log| ==> log[i].time <= now) &&
    forall i, j :: 0 <= i < j < |log| ==> log[i].time <= log[j].time
  }

  // Of `max + 1` new subjects in a row, the last comes a window after the first.
  ghost predicate Sliding(max: nat, ttl: int, log: seq<Admission>) {
    forall i, j :: 0 <= i < |log| && j == i + max < |log| ==> log[i].time + ttl <= log[j].time
  }

  // The admissions that a counter counts are the latest ones; all earlier ones
  // lay a window back when the first of them came.
  ghost predicate Tracks(max: nat, ttl: int, e: Entry<Item>, log: seq<Admission>) {
    e.value.Tally? && e.exp.Some? && e.exp.value >= e.value.reset > 0 &&
    1 <= e.value.count <= max && e.value.count <= |log| && e.value.reset == log[|log| - 1].time + ttl &&
    forall i :: 0 <= i < |log| - e.value.count ==> log[i].time + ttl <= log[|log| - e.value.count].time
  }

  predicate AllOver(ttl: int, now: int, log: seq<Admission>) {
    forall i :: 0 <= i < |log| ==> log[i].time + ttl <= now
  }

  ghost predicate SprayInv(max: nat, ttl: int, ip: string, w: Watch) {
    w.now >= 0 && Timed(w.now, w.log) && Sliding(max, ttl, w.log) &&
    if CounterKey(ip) in w.store then Tracks(max, ttl, w.store[CounterKey(ip)], w.log) else AllOver(ttl, w.now, w.log)
  }

  // A closed window has outlasted every admission.
  lemma ClosedWindow(max: nat, ttl: int, ip: string, w: Watch, now: int)
    requires ttl >= 1 && SprayInv(max, ttl, ip, w) && now >= w.now
    ensures var c := Found(w.store, CounterKey(ip), now);
      if Open(c, now) then CounterKey(ip) in w.store && c.value == w.store[CounterKey(ip)].value
      else AllOver(ttl, now, w.log)
  {
    if CounterKey(ip) in w.store {
      var e := w.store[CounterKey(ip)];
      if e.value.reset <= now {
        forall i | 0 <= i < |w.log| ensures w.log[i].time + ttl <= now {
          assert w.log[i].time <= w.log[|w.log| - 1].time;
        }
      }
    }
  }

  lemma {:induction false} AdmitKeepsSliding(max: nat, ttl: int, log: seq<Admission>, count: nat, a: Admission)
    requires ttl >= 1 && Timed(a.time, log) && Sliding(max, ttl, log) && count < max && count <= |log|
    requires forall i :: 0 <= i < |log| - count ==> log[i].time + ttl <= (log + [a])[|log| - count].time
    ensures Timed(a.time, log + [a]) && Sliding(max, ttl, log + [a])
    ensures a.time >= 0 ==>
      Tracks(max, ttl, Entry(Tally(count + 1, a.time + ttl), Some(a.time + ttl)), log + [a])
  {
  }

  // What a call does to the counter of its own address.
  lemma CounterAfter(max: nat, ttl: int, s: Store, ip: string, subject: string, now: int)
    requires ttl >= 1
    ensures var o := AfterSpray(max, ttl, s, ip, subject, now);
      var c, count := CounterKey(ip), CountOf(Found(s, CounterKey(ip), now), now);
      if o.1 == Fresh then
        count < max && c in o.0 && o.0[c] == Entry(Tally(count + 1, now + ttl), Some(now + ttl))
      else if c in o.0 then c in s && o.0[c] == s[c]
      else c in s ==> !Live(s[c], now)
  {
    KeysDiffer(ip, ip, subject);
    var s1 := Swept(s, SubjectKey(ip, subject), now);
    assert Found(s1, CounterKey(ip), now) == Found(s, CounterKey(ip), now);
  }

  lemma GuardKeepsInv(max: nat, ttl: int, ip: string, w: Watch, u: Use)
    requires max >= 1 && ttl >= 1 && SprayInv(max, ttl, ip, w) && u.now >= w.now && u.ip == ip
    ensures SprayInv(max, ttl, ip, Guard(max, ttl, ip, w, u))
  {
    ClosedWindow(max, ttl, ip, w, u.now);
    CounterAfter(max, ttl, w.store, ip, u.subject, u.now);
    var count := CountOf(Found(w.store, CounterKey(ip), u.now), u.now);
    if AfterSpray(max, ttl, w.store, ip, u.subject, u.now).1 == Fresh {
      FreshKeepsInv(max, ttl, ip, w, count, Admission(u.subject, u.now));
    }
  }

  lemma FreshKeepsInv(max: nat, ttl: int, ip: string, w: Watch, count: int, a: Admission)
    requires ttl >= 1 && SprayInv(max, ttl, ip, w) && a.time >= w.now && count < max
    requires count == CountOf(Found(w.store, CounterKey(ip), a.time), a.time)
    ensures Timed(a.time, w.log + [a]) && Sliding(max, ttl, w.log + [a])
    ensures Tracks(max, ttl, Entry(Tally(count + 1, a.time + ttl), Some(a.time + ttl)), w.log + [a])
  {
    ClosedWindow(max, ttl, ip, w, a.time);
    AdmitKeepsSliding(max, ttl, w.log, count, a);
  }

  // What a call for another address leaves alone.
  lemma OtherAddress(max: nat, ttl: int, ip: string, w: Watch, u: Use, key: string)
    requires key != CounterKey(u.ip) && key != SubjectKey(u.ip, u.subject)
    ensures var s := AfterSpray(max, ttl, w.store, u.ip, u.subject, u.now).0;
      (key in s <==> key in w.store) && (key in s ==> s[key] == w.store[key])
  {
  }

  lemma {:induction false} GuardedInv(max: nat, ttl: int, ip: string, uses: seq<Use>)
    requires max >= 1 && ttl >= 1 && Ordered(uses)
    ensures var w := Guarded(max, ttl, ip, uses);
      SprayInv(max, ttl, ip, w) && (uses != [] ==> w.now == uses[|uses| - 1].now) && (uses == [] ==> w.now == 0)
    decreases |uses|
  {
    if uses != [] {
      var n := |uses| - 1;
      GuardedInv(max, ttl, ip, uses[..n]);
      var w, u := Guarded(max, ttl, ip, uses[..n]), uses[n];
      if u.ip == ip {
        GuardKeepsInv(max, ttl, ip, w, u);
      } else {
        KeysDiffer(ip, u.ip, u.subject);
        OtherAddress(max, ttl, ip, w, u, CounterKey(ip));
      }
    }
  }

  // Main result: over any run, one address is allowed at most `max` new subjects
  // in any window of that length, wherever the window starts.
  lemma {:induction false} AtMostMaxNewSubjects(max: nat, windowSec: int, ip: string, uses: seq<Use>, i: nat, j: nat)
    requires max >= 1 && windowSec >= 0 && Ordered(uses)
    requires var log := Guarded(max, windowSec + 5, ip, uses).log;
      i <= j < |log| && log[j].time < log[i].time + windowSec + 5
    ensures j - i < max
  {
    GuardedInv(max, windowSec + 5, ip, uses);
    var log := Guarded(max, windowSec + 5, ip, uses).log;
    if i + max < |log| { assert log[i].time + windowSec + 5 <= log[i + max].time; }
  }

  // ---------------------------------------------------------------- the markers behind the counter

  // No other address writes a marker under this address's prefix.
  ghost predicate Apart(ip: string, uses: seq<Use>) {
    forall i :: 0 <= i < |uses| && uses[i].ip != ip ==> !(SubjectPrefix(ip) <= SubjectKey(uses[i].ip, uses[i].subject))
  }

  predicate FromLog(ttl: int, ip: string, log: seq<Admission>, key: string, e: Entry<Item>) {
    exists i :: 0 <= i < |log| && key == SubjectKey(ip, log[i].subject) && e.exp == Some(log[i].time + ttl)
  }

  ghost predicate MarkersLogged(ttl: int, ip: string, w: Watch) {
    forall k :: k in w.store && SubjectPrefix(ip) <= k ==> FromLog(ttl, ip, w.log, k, w.store[k])
  }

  lemma {:induction false} FromLongerLog(ttl: int, ip: string, log: seq<Admission>, a: Admission, key: string,
      e: Entry<Item>)
    ensures FromLog(ttl, ip, log, key, e) ==> FromLog(ttl, ip, log + [a], key, e)
    ensures key == SubjectKey(ip, a.subject) && e.exp == Some(a.time + ttl) ==> FromLog(ttl, ip, log + [a], key, e)
  {
    if FromLog(ttl, ip, log, key, e) {
      var i :| 0 <= i < |log| && key == SubjectKey(ip, log[i].subject) && e.exp == Some(log[i].time + ttl);
      assert (log + [a])[i] == log[i];
    }
    assert (log + [a])[|log|] == a;
  }

  lemma GuardKeepsMarkers(max: nat, ttl: int, ip: string, w: Watch, u: Use)
    requires max >= 1 && ttl >= 1 && MarkersLogged(ttl, ip, w)
    requires u.ip == ip || !(SubjectPrefix(ip) <= SubjectKey(u.ip, u.subject))
    ensures MarkersLogged(ttl, ip, Guard(max, ttl, ip, w, u))
  {
    var x := Guard(max, ttl, ip, w, u);
    var mark := SubjectKey(u.ip, u.subject);
    KeysDiffer(ip, u.ip, u.subject);
    forall k | k in x.store && SubjectPrefix(ip) <= k ensures FromLog(ttl, ip, x.log, k, x.store[k]) {
      if k != mark { OtherAddress(max, ttl, ip, w, u, k); }
      FromLongerLog(ttl, ip, w.log, Admission(u.subject, u.now), k, x.store[k]);
    }
  }

  lemma {:induction false} GuardedMarkers(max: nat, ttl: int, ip: string, uses: seq<Use>)
    requires max >= 1 && ttl >= 1 && Apart(ip, uses)
    ensures MarkersLogged(ttl, ip, Guarded(max, ttl, ip, uses))
    decreases |uses|
  {
    if uses != [] {
      GuardedMarkers(max, ttl, ip, uses[..|uses| - 1]);
      GuardKeepsMarkers(max, ttl, ip, Guarded(max, ttl, ip, uses[..|uses| - 1]), uses[|uses| - 1]);
    }
  }

  // The address's markers that expire strictly later than now.
  function LiveMarkers(s: Store, ip: string, now: int): set<string> {
    set k | k in s && SubjectPrefix(ip) <= k && (s[k].exp.None? || s[k].exp.value > now)
  }

  function KeysOf(ip: string, log: seq<Admission>): set<string> {
    set a | a in log :: SubjectKey(ip, a.subject)
  }

  lemma {:induction false} KeysOfSize(ip: string, log: seq<Admission>)
    ensures |KeysOf(ip, log)| <= |log|
  {
    if log != [] {
      var n := |log| - 1;
      KeysOfSize(ip, log[..n]);
      assert log == log[..n] + [log[n]];
      assert KeysOf(ip, log) == KeysOf(ip, log[..n]) + {SubjectKey(ip, log[n].subject)};
    }
  }

  lemma LiveMarkersAreRecent(max: nat, ttl: int, ip: string, w: Watch, from: nat)
    requires MarkersLogged(ttl, ip, w) && from <= |w.log| && AllOver(ttl, w.now, w.log[..from])
    ensures LiveMarkers(w.store, ip, w.now) <= KeysOf(ip, w.log[from..])
  {
    assert forall i :: 0 <= i < from ==> w.log[..from][i] == w.log[i];
    forall k | k in LiveMarkers(w.store, ip, w.now) ensures k in KeysOf(ip, w.log[from..]) {
      var i :| 0 <= i < |w.log| && k == SubjectKey(ip, w.log[i].subject) && w.store[k].exp == Some(w.log[i].time + ttl);
      assert i >= from;
      assert w.log[from..][i - from] == w.log[i];
    }
  }

  // Main result: the counter never falls behind the live markers it stands for,
  // nor climbs above the limit.
  lemma {:induction false} CounterCoversMarkers(max: nat, windowSec: int, ip: string, uses: seq<Use>)
    requires max >= 1 && windowSec >= 0 && Ordered(uses) && Apart(ip, uses)
    ensures var w := Guarded(max, windowSec + 5, ip, uses);
      |LiveMarkers(w.store, ip, w.now)| <= CountOf(Found(w.store, CounterKey(ip), w.now), w.now) <= max
  {
    var ttl := windowSec + 5;
    var w := Guarded(max, ttl, ip, uses);
    GuardedInv(max, ttl, ip, uses);
    GuardedMarkers(max, ttl, ip, uses);
    ClosedWindow(max, ttl, ip, w, w.now);
    var count := CountOf(Found(w.store, CounterKey(ip), w.now), w.now);
    var from := |w.log| - count;
    LiveMarkersAreRecent(max, ttl, ip, w, from);
    KeysOfSize(ip, w.log[from..]);
    SubsetSize(LiveMarkers(w.store, ip, w.now), KeysOf(ip, w.log[from..]));
  }

  // ---------------------------------------------------------------- the guard without a store

  // The run of new subjects that came less than a window after one another.
  function Streak(ttl: int, log: seq<Admission>): nat {
    if log == [] then 0
    else if |log| == 1 || log[|log| - 1].time >= log[|log| - 2].time + ttl then 1
    else Streak(ttl, log[..|log| - 1]) + 1
  }

  // How long it is now; it is over a window after its last subject.
  function Current(ttl: int, log: seq<Admission>, now: int): nat {
    if log != [] && now < log[|log| - 1].time + ttl then Streak(ttl, log) else 0
  }

  // The subject was new within the last window.
  predicate Recent(ttl: int, log: seq<Admission>, subject: string, now: int) {
    exists i :: 0 <= i < |log| && log[i].subject == subject && log[i].time + ttl >= now
  }

  predicate CountsStreak(ttl: int, ip: string, w: Watch) {
    CounterKey(ip) in w.store && w.store[CounterKey(ip)].value.Tally? ==>
      w.log != [] && w.store[CounterKey(ip)].value.count == Streak(ttl, w.log)
  }

  ghost predicate MarkersKept(ttl: int, ip: string, w: Watch) {
    forall i :: 0 <= i < |w.log| && w.log[i].time + ttl >= w.now ==>
      Marked(w.store, SubjectKey(ip, w.log[i].subject), w.log[i].time + ttl)
  }

  predicate Marked(s: Store, key: string, until: int) {
    key in s && s[key].exp.Some? && s[key].exp.value >= until
  }

  lemma {:induction false} StreakLonger(ttl: int, log: seq<Admission>, a: Admission)
    ensures Streak(ttl, log + [a]) == Current(ttl, log, a.time) + 1
  {
    assert (log + [a])[..|log|] == log;
  }

  // The stored counter is the current streak.
  lemma CounterIsStreak(max: nat, ttl: int, ip: string, w: Watch, now: int)
    requires max >= 1 && ttl >= 1 && SprayInv(max, ttl, ip, w) && CountsStreak(ttl, ip, w) && now >= w.now
    ensures CountOf(Found(w.store, CounterKey(ip), now), now) == Current(ttl, w.log, now)
  {
    ClosedWindow(max, ttl, ip, w, now);
  }

  lemma GuardCountsStreak(max: nat, ttl: int, ip: string, w: Watch, u: Use)
    requires max >= 1 && ttl >= 1 && SprayInv(max, ttl, ip, w) && CountsStreak(ttl, ip, w) && u.now >= w.now
    ensures CountsStreak(ttl, ip, Guard(max, ttl, ip, w, u))
  {
    if u.ip == ip {
      CounterIsStreak(max, ttl, ip, w, u.now);
      CounterAfter(max, ttl, w.store, ip, u.subject, u.now);
      StreakLonger(ttl, w.log, Admission(u.subject, u.now));
    } else {
      KeysDiffer(ip, u.ip, u.subject);
      OtherAddress(max, ttl, ip, w, u, CounterKey(ip));
    }
  }

  // A marker outlasts every call until it expires.
  lemma MarkStays(max: nat, ttl: int, s: Store, u: Use, key: string, until: int)
    requires ttl >= 1 && Marked(s, key, until) && until >= u.now && key != CounterKey(u.ip)
    ensures Marked(AfterSpray(max, ttl, s, u.ip, u.subject, u.now).0, key, Min(until, u.now + ttl))
    ensures key != SubjectKey(u.ip, u.subject) ==> Marked(AfterSpray(max, ttl, s, u.ip, u.subject, u.now).0, key, until)
  {
  }

  lemma {:induction false} GuardKeepsMarked(max: nat, ttl: int, ip: string, w: Watch, u: Use, i: int)
    requires max >= 1 && ttl >= 1 && SprayInv(max, ttl, ip, w) && MarkersKept(ttl, ip, w) && u.now >= w.now
    requires 0 <= i < |w.log| && w.log[i].time + ttl >= u.now
    ensures Marked(Guard(max, ttl, ip, w, u).store, SubjectKey(ip, w.log[i].subject), w.log[i].time + ttl)
  {
    var key := SubjectKey(ip, w.log[i].subject);
    KeysDiffer(u.ip, ip, w.log[i].subject);
    assert Marked(w.store, key, w.log[i].time + ttl) && w.log[i].time <= w.now;
    MarkStays(max, ttl, w.store, u, key, w.log[i].time + ttl);
  }

  lemma FreshIsMarked(max: nat, ttl: int, s: Store, ip: string, subject: string, now: int)
    requires ttl >= 1 && AfterSpray(max, ttl, s, ip, subject, now).1 == Fresh
    ensures Marked(AfterSpray(max, ttl, s, ip, subject, now).0, SubjectKey(ip, subject), now + ttl)
  {
    KeysDiffer(ip, ip, subject);
  }

  lemma {:induction false} GuardKeepsKept(max: nat, ttl: int, ip: string, w: Watch, u: Use)
    requires max >= 1 && ttl >= 1 && SprayInv(max, ttl, ip, w) && MarkersKept(ttl, ip, w) && u.now >= w.now
    ensures MarkersKept(ttl, ip, Guard(max, ttl, ip, w, u))
  {
    var x := Guard(max, ttl, ip, w, u);
    forall i | 0 <= i < |x.log| && x.log[i].time + ttl >= x.now
      ensures Marked(x.store, SubjectKey(ip, x.log[i].subject), x.log[i].time + ttl)
    {
      if i < |w.log| {
        assert x.log[i] == w.log[i];
        GuardKeepsMarked(max, ttl, ip, w, u, i);
      } else {
        FreshIsMarked(max, ttl, w.store, ip, u.subject, u.now);
      }
    }
  }

  lemma {:induction false} GuardedKeeps(max: nat, ttl: int, ip: string, uses: seq<Use>)
    requires max >= 1 && ttl >= 1 && Ordered(uses)
    ensures var w := Guarded(max, ttl, ip, uses); CountsStreak(ttl, ip, w) && MarkersKept(ttl, ip, w)
    decreases |uses|
  {
    if uses != [] {
      var n := |uses| - 1;
      GuardedKeeps(max, ttl, ip, uses[..n]);
      GuardedInv(max, ttl, ip, uses[..n]);
      GuardCountsStreak(max, ttl, ip, Guarded(max, ttl, ip, uses[..n]), uses[n]);
      GuardKeepsKept(max, ttl, ip, Guarded(max, ttl, ip, uses[..n]), uses[n]);
    }
  }

  lemma {:induction false} MarkedIsRecent(ttl: int, ip: string, w: Watch, subject: string, now: int)
    requires ttl >= 1 && w.now >= 0 && now >= w.now && MarkersLogged(ttl, ip, w) && MarkersKept(ttl, ip, w)
    requires forall i :: 0 <= i < |w.log| ==> 0 <= w.log[i].time
    ensures var key := SubjectKey(ip, subject);
      key in w.store && Live(w.store[key], now) <==> Recent(ttl, w.log, subject, now)
  {
    var key := SubjectKey(ip, subject);
    assert SubjectPrefix(ip) <= key;
    if key in w.store && Live(w.store[key], now) {
      var i :| 0 <= i < |w.log| && key == SubjectKey(ip, w.log[i].subject) &&
               w.store[key].exp == Some(w.log[i].time + ttl);
      assert key[|SubjectPrefix(ip)|..] == subject;
      assert SubjectKey(ip, w.log[i].subject)[|SubjectPrefix(ip)|..] == w.log[i].subject;
      assert w.log[i].subject == subject && w.log[i].time + ttl >= now;
    }
    if i :| 0 <= i < |w.log| && w.log[i].subject == subject && w.log[i].time + ttl >= now {
      assert Marked(w.store, key, w.log[i].time + ttl);
    }
  }

  // Addresses without a ':' keep apart ...
  lemma {:induction false} ColonFreeApart(ip: string, uses: seq<Use>)
    requires ':' !in ip && forall i :: 0 <= i < |uses| ==> ':' !in uses[i].ip
    ensures Apart(ip, uses)
  {
    forall i | 0 <= i < |uses| && SubjectPrefix(ip) <= SubjectKey(uses[i].ip, uses[i].subject)
      ensures uses[i].ip == ip
    {
      PrefixTellsAddress(ip, uses[i].ip, uses[i].subject);
    }
  }

  lemma {:induction false} PrefixTellsAddress(ip: string, other: string, subject: string)
    requires ':' !in ip && ':' !in other && SubjectPrefix(ip) <= SubjectKey(other, subject)
    ensures other == ip
  {
    var k := SubjectKey(other, subject)[6..];
    assert k == other + ":" + subject && ip + ":" <= k by { assert SubjectPrefix(ip)[6..] == ip + ":"; }
    assert k[|other|] == ':' && k[|ip|] == (ip + ":")[|ip|] == ':';
    assert forall i :: 0 <= i < |ip| ==> k[i] == (ip + ":")[i] == ip[i] && ip[i] in ip;
    assert forall i :: 0 <= i < |other| ==> k[i] == other[i] && other[i] in other;
    assert |ip| == |other|;
  }

  // ... but one IPv6 address can be the beginning of another: the marker that
  // "::1:2" leaves also lies under the prefix of "::1", which counted nothing.
  lemma SharedPrefixIsUncounted(max: nat, windowSec: int) returns (uses: seq<Use>)
    requires max >= 1 && windowSec >= 0
    ensures Ordered(uses) && !Apart("::1", uses)
    ensures var w := Guarded(max, windowSec + 5, "::1", uses);
      |LiveMarkers(w.store, "::1", w.now)| == 1 && CountOf(Found(w.store, CounterKey("::1"), w.now), w.now) == 0
  {
    var ttl := windowSec + 5;
    var ip, key := "::1:2", SubjectKey("::1:2", "s");
    uses := [Use(ip, "s", 0)];
    assert SubjectPrefix("::1") == "rlsub:::1:" && key == "rlsub:::1:2:s";
    assert uses[..0] == [];
    var empty := Watch(map[], 0, []);
    assert Guarded(max, ttl, "::1", []) == empty;
    KeysDiffer("::1", ip, "s");
    KeysDiffer(ip, ip, "s");
    var w := Guarded(max, ttl, "::1", uses);
    assert w == Guard(max, ttl, "::1", empty, uses[0]);
    assert w.store.Keys == {key, CounterKey(ip)} && w.store[key] == Entry(Mark, Some(ttl));
    assert LiveMarkers(w.store, "::1", 0) == {key};
  }

  lemma {:induction false} GuardedTimes(max: nat, ttl: int, ip: string, uses: seq<Use>)
    requires Ordered(uses)
    ensures forall i :: 0 <= i < |Guarded(max, ttl, ip, uses).log| ==> 0 <= Guarded(max, ttl, ip, uses).log[i].time
    decreases |uses|
  {
    if uses != [] { GuardedTimes(max, ttl, ip, uses[..|uses| - 1]); }
  }

  // Main result: over every run the guard decides as if it had no store at all.  A
  // subject that was new within the last window is known; any other is refused
  // exactly while the current streak of new subjects has reached the maximum.
  lemma {:induction false} GuardDecidesExactly(max: nat, windowSec: int, ip: string, uses: seq<Use>, u: Use)
    requires max >= 1 && windowSec >= 0 && Ordered(uses + [u]) && Apart(ip, uses) && u.ip == ip
    ensures var ttl := windowSec + 5;
      var w := Guarded(max, ttl, ip, uses);
      var v := AfterSpray(max, ttl, w.store, ip, u.subject, u.now).1;
      if Recent(ttl, w.log, u.subject, u.now) then v == Known
      else if Current(ttl, w.log, u.now) >= max then v == Refused
      else v == Fresh
  {
    var ttl := windowSec + 5;
    assert Ordered(uses) && (uses != [] ==> uses[|uses| - 1].now <= u.now) && u.now >= 0 by { OrderedPrefix(uses, u); }
    GuardedInv(max, ttl, ip, uses);
    GuardedMarkers(max, ttl, ip, uses);
    GuardedKeeps(max, ttl, ip, uses);
    GuardedTimes(max, ttl, ip, uses);
    var w := Guarded(max, ttl, ip, uses);
    CounterIsStreak(max, ttl, ip, w, u.now);
    MarkedIsRecent(ttl, ip, w, u.subject, u.now);
    VerdictIs(max, ttl, w.store, ip, u.subject, u.now);
  }

  lemma {:induction false} OrderedPrefix(uses: seq<Use>, u: Use)
    requires Ordered(uses + [u])
    ensures Ordered(uses) && (uses != [] ==> uses[|uses| - 1].now <= u.now) && u.now >= 0
  {
    var all := uses + [u];
    assert all[|uses|] == u && forall i :: 0 <= i < |uses| ==> all[i] == uses[i];
  }

  lemma VerdictIs(max: nat, ttl: int, s: Store, ip: string, subject: string, now: int)
    ensures var v, key := AfterSpray(max, ttl, s, ip, subject, now).1, SubjectKey(ip, subject);
      if key in s && Live(s[key], now) then v == Known
      else if CountOf(Found(s, CounterKey(ip), now), now) >= max then v == Refused
      else v == Fresh
  {
    KeysDiffer(ip, ip, subject);
  }
}
