// The worker's KV-backed limiters: requests per address, and fresh subjects per
// address.  Their counters live in entries that expire.
module WorkerLimits {
  import opened Wrappers
  import opened Kv
  import opened FixedWindow

  // What these keys hold: "1", or the JSON text of {count, reset}.
  datatype Item = Mark | Tally(count: int, reset: int)

  type Store = map<string, Entry<Item>>

  datatype Reply = Passed | Blocked | Failed

  // What happens to one attempt at the two KV operations.
  datatype Fault = Fine | GetFails(busy: bool) | PutFails(applied: bool, busy: bool)
  datatype Try = Try(now: int, fault: Fault)

  // The counter that a reader at time `now` finds, and what it still counts then.
  function Found(s: Store, key: string, now: int): Option<Item> {
    if key in Visible(s, now) then Some(Visible(s, now)[key]) else None
  }

  predicate Open(c: Option<Item>, now: int) {
    c.Some? && c.value.Tally? && c.value.reset != 0 && now < c.value.reset
  }

  function CountOf(c: Option<Item>, now: int): int { if Open(c, now) then c.value.count else 0 }

  function Next(c: Option<Item>, now: int, ttl: int): Item {
    if Open(c, now) then Tally(c.value.count + 1, c.value.reset) else Tally(1, now + ttl)
  }

  // ---------------------------------------------------------------- requests per address

  predicate AtLimit(max: int, c: Option<Item>, now: int) { Open(c, now) && c.value.count >= max }

  function Stored(ttl: int, s: Store, key: string, now: int): Store {
    s[key := Entry(Next(Found(s, key, now), now, ttl), ExpiryAfter(Some(ttl), now))]
  }

  predicate Busy(f: Fault) { !f.Fine? && f.busy }

  // One attempt: the store after it, and whether the limit let it through.
  function AfterTry(max: int, ttl: int, s: Store, key: string, t: Try): Store {
    if t.fault.GetFails? then s else
    var s1 := Swept(s, key, t.now);
    if AtLimit(max, Found(s, key, t.now), t.now) || (t.fault.PutFails? && !t.fault.applied) then s1
    else Stored(ttl, s1, key, t.now)
  }

  function Answer(max: int, s: Store, key: string, t: Try): Reply {
    if t.fault.GetFails? then Failed
    else if AtLimit(max, Found(s, key, t.now), t.now) then Blocked
    else if t.fault.PutFails? then Failed else Passed
  }

  // Up to three attempts, the next one after a busy error only.
  predicate Retries(max: int, s: Store, key: string, tries: seq<Try>)
    requires tries != []
  {
    Answer(max, s, key, tries[0]) == Failed && Busy(tries[0].fault) && |tries| > 1
  }

  // The store after a request, its answer, and the time of its last attempt.
  datatype Served = Served(store: Store, reply: Reply, time: int)

  function Limit(max: int, ttl: int, s: Store, key: string, tries: seq<Try>): Served
    requires tries != []
    decreases |tries|
  {
    var s1 := AfterTry(max, ttl, s, key, tries[0]);
    if Retries(max, s, key, tries) then Limit(max, ttl, s1, key, tries[1..])
    else Served(s1, Answer(max, s, key, tries[0]), tries[0].now)
  }

  method RateLimit(kv: MemoryKv<Item>, key: string, max: int, windowSec: int, tries: seq<Try>) returns (r: Reply)
    requires |tries| == 3
    modifies kv
    ensures max <= 0 ==> r == Passed && kv.store == old(kv.store)
    ensures max > 0 ==> kv.store == Limit(max, windowSec + 5, old(kv.store), key, tries).store
    ensures max > 0 ==> r == Limit(max, windowSec + 5, old(kv.store), key, tries).reply
  {
    if max <= 0 { return Passed; }
    var ttl := windowSec + 5;
    var attempt := 0;
    ghost var was := kv.store;
    while attempt < 3
      invariant 0 <= attempt < 3
      invariant Limit(max, ttl, was, key, tries) == Limit(max, ttl, kv.store, key, tries[attempt..])
      decreases 3 - attempt
    {
      ghost var s := kv.store;
      assert tries[attempt..][1..] == tries[attempt + 1..];
      var t := tries[attempt];
      if !t.fault.GetFails? {
        var raw := kv.Get(key, t.now);
        if Open(raw, t.now) && raw.value.count >= max { return Blocked; }
        var next := Next(raw, t.now, ttl);
        if t.fault.Fine? || t.fault.applied { kv.Put(key, next, Some(ttl), t.now); }
        if t.fault.Fine? { return Passed; }
      }
      assert kv.store == AfterTry(max, ttl, s, key, t);
      if !t.fault.busy || attempt == 2 { return Failed; }
      attempt := attempt + 1;
    }
    r := Failed;
  }

  // ---------------------------------------------------------------- runs of the limiter

  datatype Request = Request(key: string, tries: seq<Try>)

  // The store and the clock between requests, and the admissions of one key.
  datatype World = World(store: Store, now: int, log: seq<Hit>)

  function Serve(max: int, ttl: int, key: string, w: World, r: Request): World
    requires r.tries != []
  {
    var o := Limit(max, ttl, w.store, r.key, r.tries);
    World(o.store, o.time,
          if r.key == key && o.reply == Passed && key in o.store && o.store[key].value.Tally?
          then w.log + [Hit(o.time, o.store[key].value.reset)] else w.log)
  }

  predicate InOrder(now: int, tries: seq<Try>) {
    tries != [] && tries[0].now >= now && forall i, j :: 0 <= i < j < |tries| ==> tries[i].now <= tries[j].now
  }

  // Requests one after the other, starting from an empty store.
  ghost predicate Reached(max: int, ttl: int, key: string, w: World, requests: seq<Request>)
    decreases |requests|
  {
    if requests == [] then w.store == map[] && w.log == [] && w.now >= 0
    else
      var n := |requests| - 1;
      exists v :: Reached(max, ttl, key, v, requests[..n]) &&
                  InOrder(v.now, requests[n].tries) && w == Serve(max, ttl, key, v, requests[n])
  }

  // A counter outlives its window, and counts at least the admissions of that window.
  ghost predicate CounterOk(max: nat, ttl: int, e: Entry<Item>, log: seq<Hit>) {
    e.value.Tally? && e.exp.Some? && e.exp.value >= e.value.reset > 0 &&
    CountWindow(log, e.value.reset) <= e.value.count <= max &&
    forall i :: 0 <= i < |log| ==> log[i].end == e.value.reset || log[i].end + ttl <= e.value.reset
  }

  ghost predicate Counts(max: nat, ttl: int, key: string, w: World) {
    w.now >= 0 && WindowLog(ttl, max, w.log) &&
    if key in w.store then CounterOk(max, ttl, w.store[key], w.log) && w.store[key].value.reset <= w.now + ttl
    else forall i :: 0 <= i < |w.log| ==> w.log[i].end <= w.now
  }

  // Reading through expiry and reading the bare entry agree on what is open.
  lemma ExpiryIsHarmless(max: nat, ttl: int, key: string, w: World, now: int)
    requires Counts(max, ttl, key, w) && now >= w.now && key in w.store
    ensures Open(Found(w.store, key, now), now) <==> Open(Some(w.store[key].value), now)
    ensures CountOf(Found(w.store, key, now), now) == CountOf(Some(w.store[key].value), now)
  {
  }

  // The admission that a counter has already counted.
  lemma {:induction false} LogCounted(max: nat, ttl: int, e: Entry<Item>, log: seq<Hit>, now: int)
    requires CounterOk(max, ttl, e, log) && CountWindow(log, e.value.reset) < e.value.count
    ensures CounterOk(max, ttl, e, log + [Hit(now, e.value.reset)])
  {
    assert (log + [Hit(now, e.value.reset)])[..|log|] == log;
  }

  // A new window starts after all earlier ones.
  lemma {:induction false} OpenWindow(max: nat, ttl: int, now: int, log: seq<Hit>)
    requires max >= 1 && ttl >= 1 && now >= 0 && forall i :: 0 <= i < |log| ==> log[i].end <= now
    ensures CounterOk(max, ttl, Entry(Tally(1, now + ttl), Some(now + ttl)), log)
    ensures CountWindow(log, now + ttl) == 0
  {
    NoSuchWindow(log, now + ttl);
  }

  lemma {:induction false} AdmitCounted(max: nat, ttl: int, e: Entry<Item>, log: seq<Hit>, now: int)
    requires CounterOk(max, ttl, e, log) && CountWindow(log, e.value.reset) < e.value.count
    requires WindowLog(ttl, max, log) && now < e.value.reset <= now + ttl
    ensures WindowLog(ttl, max, log + [Hit(now, e.value.reset)])
  {
    Admit(ttl, max, log, Hit(now, e.value.reset));
  }

  lemma StoredKeepsCounts(max: nat, ttl: int, key: string, w: World, now: int)
    requires max >= 1 && ttl >= 1 && Counts(max, ttl, key, w) && now >= w.now
    requires !AtLimit(max, Found(w.store, key, now), now)
    ensures var s1 := Stored(ttl, w.store, key, now);
      s1[key].value.Tally? && Counts(max, ttl, key, World(s1, now, w.log)) &&
      Counts(max, ttl, key, World(s1, now, w.log + [Hit(now, s1[key].value.reset)]))
  {
    var e := StoredCounter(max, ttl, key, w, now);
    LogCounted(max, ttl, e, w.log, now);
    AdmitCounted(max, ttl, e, w.log, now);
  }

  lemma StoredCounter(max: nat, ttl: int, key: string, w: World, now: int) returns (e: Entry<Item>)
    requires max >= 1 && ttl >= 1 && Counts(max, ttl, key, w) && now >= w.now
    requires !AtLimit(max, Found(w.store, key, now), now)
    ensures e == Stored(ttl, w.store, key, now)[key]
    ensures CounterOk(max, ttl, e, w.log) && CountWindow(w.log, e.value.reset) < e.value.count
    ensures now < e.value.reset <= now + ttl
  {
    e := Stored(ttl, w.store, key, now)[key];
    if key in w.store { ExpiryIsHarmless(max, ttl, key, w, now); }
    if !Open(Found(w.store, key, now), now) { OpenWindow(max, ttl, now, w.log); }
  }

  lemma TryKeepsCounts(max: nat, ttl: int, key: string, w: World, t: Try)
    requires max >= 1 && ttl >= 1 && Counts(max, ttl, key, w) && t.now >= w.now
    ensures var s1 := AfterTry(max, ttl, w.store, key, t);
      Counts(max, ttl, key, World(s1, t.now, w.log)) &&
      (Answer(max, w.store, key, t) == Passed ==>
         key in s1 && s1[key].value.Tally? &&
         Counts(max, ttl, key, World(s1, t.now, w.log + [Hit(t.now, s1[key].value.reset)])))
  {
    var s1 := Swept(w.store, key, t.now);
    if !AtLimit(max, Found(w.store, key, t.now), t.now) { StoredKeepsCounts(max, ttl, key, w, t.now); }
    assert Stored(ttl, s1, key, t.now) == Stored(ttl, w.store, key, t.now);
  }

  lemma {:induction false} LimitKeepsCounts(max: nat, ttl: int, key: string, w: World, tries: seq<Try>)
    requires max >= 1 && ttl >= 1 && Counts(max, ttl, key, w) && InOrder(w.now, tries)
    ensures Counts(max, ttl, key, Serve(max, ttl, key, w, Request(key, tries)))
    decreases |tries|
  {
    TryKeepsCounts(max, ttl, key, w, tries[0]);
    if Retries(max, w.store, key, tries) {
      var v := World(AfterTry(max, ttl, w.store, key, tries[0]), tries[0].now, w.log);
      LimitKeepsCounts(max, ttl, key, v, tries[1..]);
      assert Serve(max, ttl, key, w, Request(key, tries)) == Serve(max, ttl, key, v, Request(key, tries[1..]));
    }
  }

  // A request for another key leaves this key's entry alone.
  lemma {:induction false} OtherKey(max: nat, ttl: int, key: string, s: Store, other: string, tries: seq<Try>, now: int)
    requires other != key && InOrder(now, tries)
    ensures var o := Limit(max, ttl, s, other, tries);
      o.time >= now && (key in o.store <==> key in s) && (key in s ==> o.store[key] == s[key])
    decreases |tries|
  {
    if Retries(max, s, other, tries) {
      OtherKey(max, ttl, key, AfterTry(max, ttl, s, other, tries[0]), other, tries[1..], tries[0].now);
    }
  }

  lemma {:induction false} ReachedCounts(max: nat, ttl: int, key: string, w: World, requests: seq<Request>)
    requires max >= 1 && ttl >= 1 && Reached(max, ttl, key, w, requests)
    ensures Counts(max, ttl, key, w)
    decreases |requests|
  {
    if requests != [] {
      var n := |requests| - 1;
      var v :| Reached(max, ttl, key, v, requests[..n]) &&
               InOrder(v.now, requests[n].tries) && w == Serve(max, ttl, key, v, requests[n]);
      ReachedCounts(max, ttl, key, v, requests[..n]);
      if requests[n].key == key {
        LimitKeepsCounts(max, ttl, key, v, requests[n].tries);
        assert requests[n] == Request(key, requests[n].tries);
      } else {
        OtherKey(max, ttl, key, v.store, requests[n].key, requests[n].tries, v.now);
      }
    }
  }

  // Main result: whatever the other addresses do and whichever KV operations
  // fail, an address passes at most twice the limit in any window's length.
  lemma {:induction false} AddressPassesAtMostTwice(max: nat, windowSec: int, key: string, w: World,
      requests: seq<Request>, from: int)
    requires max >= 1 && windowSec >= 0 && Reached(max, windowSec + 5, key, w, requests)
    ensures CountBetween(w.log, from, from + windowSec + 5) <= 2 * max
  {
    ReachedCounts(max, windowSec + 5, key, w, requests);
    AtMostTwice(windowSec + 5, max, w.log, from);
  }

  // ---------------------------------------------------------------- the plain window counter

  // A window counter without a store: the newest window is open and full.
  predicate WindowFull(max: nat, log: seq<Hit>, now: int) {
    log != [] && now < log[|log| - 1].end && CountWindow(log, log[|log| - 1].end) >= max
  }

  function WindowEnd(ttl: int, log: seq<Hit>, now: int): int {
    if log != [] && now < log[|log| - 1].end then log[|log| - 1].end else now + ttl
  }

  ghost predicate Agrees(key: string, w: World) {
    key in w.store && w.store[key].value.Tally? ==>
      w.log != [] && w.log[|w.log| - 1].end == w.store[key].value.reset &&
      w.store[key].value.count == CountWindow(w.log, w.store[key].value.reset)
  }

  predicate NoFaults(requests: seq<Request>) {
    forall i :: 0 <= i < |requests| && requests[i].tries != [] ==> requests[i].tries[0].fault.Fine?
  }

  // The stored counter and the plain one decide alike.
  lemma SameDecision(max: nat, ttl: int, key: string, w: World, now: int)
    requires max >= 1 && ttl >= 1 && Counts(max, ttl, key, w) && Agrees(key, w) && now >= w.now
    ensures var c := Found(w.store, key, now);
      WindowFull(max, w.log, now) == AtLimit(max, c, now) &&
      WindowEnd(ttl, w.log, now) == Next(c, now, ttl).reset &&
      (Open(c, now) ==> c.value.count == CountWindow(w.log, c.value.reset))
  {
    if key in w.store {
      ExpiryIsHarmless(max, ttl, key, w, now);
    } else if w.log != [] {
      assert w.log[|w.log| - 1].end <= now;
    }
  }

  lemma {:induction false} StoredAgrees(ttl: int, key: string, s: Store, log: seq<Hit>, now: int)
    requires var c := Found(s, key, now);
      CountWindow(log, Next(c, now, ttl).reset) == if Open(c, now) then c.value.count else 0
    ensures var v := Stored(ttl, s, key, now);
      Agrees(key, World(v, now, log + [Hit(now, Next(Found(s, key, now), now, ttl).reset)]))
  {
    var h := Hit(now, Next(Found(s, key, now), now, ttl).reset);
    assert (log + [h])[..|log|] == log;
  }

  lemma {:induction false} FineStep(max: nat, ttl: int, key: string, w: World, tries: seq<Try>)
    requires max >= 1 && ttl >= 1 && Counts(max, ttl, key, w) && Agrees(key, w)
    requires InOrder(w.now, tries) && tries[0].fault.Fine?
    ensures var now := tries[0].now;
      var v := Serve(max, ttl, key, w, Request(key, tries));
      v.log == (if WindowFull(max, w.log, now) then w.log else w.log + [Hit(now, WindowEnd(ttl, w.log, now))]) &&
      Agrees(key, v)
  {
    var now := tries[0].now;
    SameDecision(max, ttl, key, w, now);
    if !WindowFull(max, w.log, now) {
      FirstInWindow(max, ttl, key, w, now);
      StoredAgrees(ttl, key, w.store, w.log, now);
      assert Stored(ttl, Swept(w.store, key, now), key, now) == Stored(ttl, w.store, key, now);
    }
  }

  lemma FirstInWindow(max: nat, ttl: int, key: string, w: World, now: int)
    requires ttl >= 1 && Counts(max, ttl, key, w) && now >= w.now
    ensures !Open(Found(w.store, key, now), now) ==> CountWindow(w.log, now + ttl) == 0
  {
    if !Open(Found(w.store, key, now), now) {
      if key in w.store { ExpiryIsHarmless(max, ttl, key, w, now); }
      NoSuchWindow(w.log, now + ttl);
    }
  }

  lemma {:induction false} ReachedAgrees(max: nat, ttl: int, key: string, w: World, requests: seq<Request>)
    requires max >= 1 && ttl >= 1 && Reached(max, ttl, key, w, requests) && NoFaults(requests)
    ensures Agrees(key, w)
    decreases |requests|
  {
    if requests != [] {
      var n := |requests| - 1;
      var v :| Reached(max, ttl, key, v, requests[..n]) &&
               InOrder(v.now, requests[n].tries) && w == Serve(max, ttl, key, v, requests[n]);
      ReachedAgrees(max, ttl, key, v, requests[..n]);
      ReachedCounts(max, ttl, key, v, requests[..n]);
      if requests[n].key == key {
        FineStep(max, ttl, key, v, requests[n].tries);
        assert requests[n] == Request(key, requests[n].tries);
      } else {
        OtherKey(max, ttl, key, v.store, requests[n].key, requests[n].tries, v.now);
      }
    }
  }

  lemma {:induction false} FineReply(max: nat, ttl: int, key: string, w: World, tries: seq<Try>)
    requires max >= 1 && ttl >= 1 && Counts(max, ttl, key, w) && Agrees(key, w)
    requires InOrder(w.now, tries) && tries[0].fault.Fine?
    ensures var now := tries[0].now;
      var o := Limit(max, ttl, w.store, key, tries);
      o.reply == (if WindowFull(max, w.log, now) then Blocked else Passed) &&
      (o.reply == Passed ==> key in o.store && o.store[key].value.Tally? &&
                             o.store[key].value.reset == WindowEnd(ttl, w.log, now))
  {
    SameDecision(max, ttl, key, w, tries[0].now);
  }

  // Main result: when no KV operation fails, the stored counter decides every
  // request as the plain window counter does; its entry never expires too soon.
  lemma {:induction false} LimiterIsWindowCounter(max: nat, windowSec: int, key: string, w: World,
      requests: seq<Request>, tries: seq<Try>)
    requires max >= 1 && windowSec >= 0 && Reached(max, windowSec + 5, key, w, requests) && NoFaults(requests)
    requires InOrder(w.now, tries) && tries[0].fault.Fine?
    ensures var now := tries[0].now;
      var o := Limit(max, windowSec + 5, w.store, key, tries);
      o.reply == (if WindowFull(max, w.log, now) then Blocked else Passed) &&
      (o.reply == Passed ==> key in o.store && o.store[key].value.Tally? &&
                             o.store[key].value.reset == WindowEnd(windowSec + 5, w.log, now))
  {
    ReachedAgrees(max, windowSec + 5, key, w, requests);
    ReachedCounts(max, windowSec + 5, key, w, requests);
    FineReply(max, windowSec + 5, key, w, tries);
  }

  // A busy store is asked up to three times; what the last attempt finds is the
  // answer.  Any other fault ends the request at once.
  lemma {:induction false} BusyIsRetried(max: int, ttl: int, s: Store, key: string, t0: Try, t1: Try, t2: Try)
    requires t0.fault == t1.fault == GetFails(true)
    ensures var o := Limit(max, ttl, s, key, [t0, t1, t2]);
      o.time == t2.now &&
      if t2.fault.GetFails? then o.reply == Failed && o.store == s
      else if Open(Found(s, key, t2.now), t2.now) && Found(s, key, t2.now).value.count >= max then o.reply == Blocked
      else o.reply == if t2.fault.Fine? then Passed else Failed
  {
    assert [t0, t1, t2][1..] == [t1, t2] && [t1, t2][1..] == [t2];
    assert Limit(max, ttl, s, key, [t1, t2]) == Limit(max, ttl, s, key, [t2]);
    assert Limit(max, ttl, s, key, [t0, t1, t2]) == Limit(max, ttl, s, key, [t1, t2]);
  }

  lemma {:induction false} OtherFaultsEnd(max: int, ttl: int, s: Store, key: string, tries: seq<Try>)
    requires tries != [] && tries[0].fault == GetFails(false)
    ensures Limit(max, ttl, s, key, tries) == Served(s, Failed, tries[0].now)
  {
  }
}
