// The registry's rate limiter: fixed-window buckets by sender, site and caller in
// one table, whose size is bounded by evicting the buckets that end first.
module AuthRate {
  import opened Wrappers
  import opened FixedWindow

  datatype Bucket = Bucket(count: int, reset: int)

  type Buckets = map<string, Bucket>

  datatype Config = Config(window: int, max: nat, siteMax: nat, callerMax: nat, maxBuckets: int, bucketTtl: int)

  datatype Verdict = Passed | RateLimited | RateLimitedSite | RateLimitedCaller

  datatype Request = Request(site: Option<string>, actor: string, caller: Option<string>)

  // ---------------------------------------------------------------- pruning

  function Running(s: Buckets, now: int): Buckets { map k | k in s && s[k].reset >= now :: s[k] }

  function Fresh(ttl: int, s: Buckets, now: int): Buckets {
    map k | k in s && (ttl <= 0 || now - s[k].reset <= ttl) :: s[k]
  }

  // The second sweep never finds anything: what it looks for has ended before.
  lemma SecondSweepIsIdle(ttl: int, s: Buckets, now: int)
    ensures Fresh(ttl, Running(s, now), now) == Running(s, now)
  {
  }

  predicate EndsFirst(s: Buckets, k: string) { k in s && forall j :: j in s ==> s[k].reset <= s[j].reset }

  function Room(maxBuckets: int, n: nat): nat { if maxBuckets > 0 then Min(n, maxBuckets) else n }

  // What pruning may leave: as many running buckets as there is room for, and
  // none that ends before one that was evicted.
  predicate Pruned(cfg: Config, s: Buckets, t: Buckets, now: int) {
    var live := Running(s, now);
    t.Keys <= live.Keys && (forall k :: k in t ==> t[k] == live[k]) && |t| == Room(cfg.maxBuckets, |live|) &&
    forall j, k :: j in live && j !in t && k in t ==> live[j].reset <= t[k].reset
  }

  // ---------------------------------------------------------------- counting

  // One more request in a bucket; a bucket that is over starts again.
  function Bump(window: int, s: Buckets, key: string, now: int): Bucket {
    if key in s && s[key].reset >= now then Bucket(s[key].count + 1, s[key].reset) else Bucket(1, now + window)
  }

  // The buckets that a request counts in, each with its limit.
  datatype Touch = Touch(key: string, max: nat, refusal: Verdict)

  function RateKey(r: Request): string { (if r.site.Some? then r.site.value else "global") + ":" + r.actor }

  function Touches(cfg: Config, r: Request): seq<Touch> {
    [Touch(RateKey(r), cfg.max, RateLimited)] + (SiteTouches(cfg, r) + CallerTouches(cfg, r))
  }

  // Count in one bucket after the other, up to the first that is over its limit.
  function Counted(window: int, s: Buckets, ts: seq<Touch>, now: int): (Buckets, Verdict)
    decreases |ts|
  {
    if ts == [] then (s, Passed)
    else
      var b := Bump(window, s, ts[0].key, now);
      var s1 := s[ts[0].key := b];
      if b.count > ts[0].max then (s1, ts[0].refusal) else Counted(window, s1, ts[1..], now)
  }

  lemma {:induction false} CountFirst(window: int, s: Buckets, t: Touch, rest: seq<Touch>, now: int)
    ensures var b := Bump(window, s, t.key, now);
      Counted(window, s, [t] + rest, now) ==
      if b.count > t.max then (s[t.key := b], t.refusal) else Counted(window, s[t.key := b], rest, now)
  {
    assert ([t] + rest)[1..] == rest;
  }

  function SiteTouches(cfg: Config, r: Request): seq<Touch> {
    if cfg.siteMax > 0 && r.site.Some? then [Touch("site:" + r.site.value, cfg.siteMax, RateLimitedSite)] else []
  }

  function CallerTouches(cfg: Config, r: Request): seq<Touch> {
    if cfg.callerMax > 0 && r.caller.Some? then
      [Touch("caller:" + r.caller.value, cfg.callerMax, RateLimitedCaller)]
    else []
  }

  class RateLimiter {
    const cfg: Config
    var rateStore: Buckets

    constructor (cfg: Config)
      ensures this.cfg == cfg && rateStore == map[]
    {
      this.cfg, rateStore := cfg, map[];
    }

    method DropEnded(now: int)
      modifies this
      ensures rateStore == Running(old(rateStore), now)
    {
      var todo := rateStore.Keys;
      ghost var was := rateStore;
      while todo != {}
        invariant todo <= was.Keys
        invariant rateStore == map k | k in was && (k in todo || was[k].reset >= now) :: was[k]
        decreases todo
      {
        var k :| k in todo;
        todo := todo - {k};
        if rateStore[k].reset < now { rateStore := rateStore - {k}; }
      }
    }

    method DropStale(now: int)
      modifies this
      ensures rateStore == Fresh(cfg.bucketTtl, old(rateStore), now)
    {
      if cfg.bucketTtl > 0 {
        var todo := rateStore.Keys;
        ghost var was := rateStore;
        while todo != {}
          invariant todo <= was.Keys
          invariant rateStore == map k | k in was && (k in todo || now - was[k].reset <= cfg.bucketTtl) :: was[k]
          decreases todo
        {
          var k :| k in todo;
          todo := todo - {k};
          if now - rateStore[k].reset > cfg.bucketTtl { rateStore := rateStore - {k}; }
        }
      }
    }

    method FindOldest() returns (oldest: string)
      requires rateStore != map[]
      ensures EndsFirst(rateStore, oldest)
    {
      var todo := rateStore.Keys;
      oldest :| oldest in todo;
      todo := todo - {oldest};
      while todo != {}
        invariant todo <= rateStore.Keys && oldest in rateStore
        invariant forall k :: k in rateStore && k !in todo ==> rateStore[oldest].reset <= rateStore[k].reset
        decreases todo
      {
        var k :| k in todo;
        if rateStore[k].reset < rateStore[oldest].reset { oldest := k; }
        todo := todo - {k};
      }
    }

    method PruneRate(now: int)
      modifies this
      ensures Pruned(cfg, old(rateStore), rateStore, now)
    {
      DropEnded(now);
      DropStale(now);
      SecondSweepIsIdle(cfg.bucketTtl, old(rateStore), now);
      ghost var live := rateStore;
      if cfg.maxBuckets > 0 {
        while |rateStore| > cfg.maxBuckets
          invariant rateStore.Keys <= live.Keys && forall k :: k in rateStore ==> rateStore[k] == live[k]
          invariant |rateStore| <= |live| && (|live| > cfg.maxBuckets ==> |rateStore| >= cfg.maxBuckets)
          invariant |live| <= cfg.maxBuckets ==> rateStore == live
          invariant forall j, k :: j in live && j !in rateStore && k in rateStore ==>
              live[j].reset <= rateStore[k].reset
          decreases |rateStore|
        {
          var oldest := FindOldest();
          ghost var s := rateStore;
          rateStore := rateStore - {oldest};
          assert rateStore.Keys == s.Keys - {oldest};
        }
      }
    }

    method CheckRateLimit(r: Request, now: int) returns (v: Verdict, ghost mid: Buckets)
      modifies this
      ensures Pruned(cfg, old(rateStore), mid, now)
      ensures (rateStore, v) == Counted(cfg.window, mid, Touches(cfg, r), now)
    {
      PruneRate(now);
      mid := rateStore;
      v := CountIn(r, now);
    }

    method CountSender(key: string, now: int) returns (ok: bool)
      modifies this
      ensures var b := Bump(cfg.window, old(rateStore), key, now);
        rateStore == old(rateStore)[key := b] && ok == (b.count <= cfg.max)
    {
      var bucket := if key in rateStore then rateStore[key] else Bucket(0, now + cfg.window);
      bucket := bucket.(count := bucket.count + 1);
      if bucket.reset < now { bucket := Bucket(1, now + cfg.window); }
      rateStore := rateStore[key := bucket];
      ok := bucket.count <= cfg.max;
    }

    // The same for site and caller, written the other way round.
    method CountCapped(key: string, max: nat, now: int) returns (ok: bool)
      modifies this
      ensures var b := Bump(cfg.window, old(rateStore), key, now);
        rateStore == old(rateStore)[key := b] && ok == (b.count <= max)
    {
      var s := if key in rateStore then rateStore[key] else Bucket(0, now + cfg.window);
      if s.reset < now { s := Bucket(0, now + cfg.window); }
      s := s.(count := s.count + 1);
      rateStore := rateStore[key := s];
      ok := s.count <= max;
    }

    method CountIn(r: Request, now: int) returns (v: Verdict)
      modifies this
      ensures (rateStore, v) == Counted(cfg.window, old(rateStore), Touches(cfg, r), now)
    {
      var s0 := rateStore;
      ghost var sites, callers := SiteTouches(cfg, r), CallerTouches(cfg, r);
      CountFirst(cfg.window, s0, Touch(RateKey(r), cfg.max, RateLimited), sites + callers, now);
      var ok := CountSender(RateKey(r), now);
      if !ok { return RateLimited; }
      v := CountCaps(r, now);
    }

    method CountCaps(r: Request, now: int) returns (v: Verdict)
      modifies this
      ensures (rateStore, v) == Counted(cfg.window, old(rateStore), SiteTouches(cfg, r) + CallerTouches(cfg, r), now)
    {
      if cfg.siteMax > 0 && r.site.Some? {
        CountFirst(cfg.window, rateStore, SiteTouches(cfg, r)[0], CallerTouches(cfg, r), now);
        var ok := CountCapped("site:" + r.site.value, cfg.siteMax, now);
        if !ok { return RateLimitedSite; }
      } else {
        assert SiteTouches(cfg, r) + CallerTouches(cfg, r) == CallerTouches(cfg, r);
      }
      v := CountCallers(r, now);
    }

    method CountCallers(r: Request, now: int) returns (v: Verdict)
      modifies this
      ensures (rateStore, v) == Counted(cfg.window, old(rateStore), CallerTouches(cfg, r), now)
    {
      if cfg.callerMax > 0 && r.caller.Some? {
        var ok := CountCapped("caller:" + r.caller.value, cfg.callerMax, now);
        if !ok { return RateLimitedCaller; }
      }
      v := Passed;
    }
  }

  // ---------------------------------------------------------------- what a bucket admits

  // A bucket counts at least the admissions of its window; earlier windows end
  // a whole window before.
  ghost predicate BucketOk(window: int, b: Bucket, log: seq<Hit>) {
    CountWindow(log, b.reset + 1) <= b.count &&
    forall i :: 0 <= i < |log| ==> log[i].end == b.reset + 1 || log[i].end + window <= b.reset
  }

  // The admissions under one bucket and one limit, and the bucket itself.
  ghost predicate Tracks(window: int, max: nat, key: string, s: Buckets, now: int, log: seq<Hit>) {
    WindowLog(window + 1, max, log) &&
    if key in s then s[key].reset <= now + window && BucketOk(window, s[key], log)
    else forall i :: 0 <= i < |log| ==> log[i].end <= now
  }

  // Counting one request: it is admitted if the count stays within the limit.
  function Logged(window: int, s: Buckets, key: string, max: nat, now: int, log: seq<Hit>): seq<Hit> {
    var b := Bump(window, s, key, now);
    if b.count <= max then log + [Hit(now, b.reset + 1)] else log
  }

  lemma {:induction false} BumpedBucket(window: int, max: nat, key: string, s: Buckets, now: int, log: seq<Hit>)
    requires window >= 0 && Tracks(window, max, key, s, now, log)
    ensures var b := Bump(window, s, key, now);
      BucketOk(window, b, log) && CountWindow(log, b.reset + 1) < b.count && now <= b.reset <= now + window
  {
    if !(key in s && s[key].reset >= now) { NoSuchWindow(log, now + window + 1); }
  }

  lemma {:induction false} LogCounted(window: int, b: Bucket, log: seq<Hit>, now: int)
    requires BucketOk(window, b, log) && CountWindow(log, b.reset + 1) < b.count
    ensures BucketOk(window, b, log + [Hit(now, b.reset + 1)])
  {
    assert (log + [Hit(now, b.reset + 1)])[..|log|] == log;
  }

  lemma {:induction false} AdmitCounted(window: int, max: nat, b: Bucket, log: seq<Hit>, now: int)
    requires WindowLog(window + 1, max, log) && BucketOk(window, b, log)
    requires CountWindow(log, b.reset + 1) < b.count <= max && now <= b.reset <= now + window
    ensures WindowLog(window + 1, max, log + [Hit(now, b.reset + 1)])
  {
    Admit(window + 1, max, log, Hit(now, b.reset + 1));
  }

  lemma {:induction false} TracksBucket(window: int, max: nat, key: string, s: Buckets, b: Bucket, now: int,
      log: seq<Hit>)
    requires WindowLog(window + 1, max, log) && BucketOk(window, b, log) && b.reset <= now + window
    ensures Tracks(window, max, key, s[key := b], now, log)
  {
  }

  lemma {:induction false} BumpKeepsTracks(window: int, max: nat, key: string, s: Buckets, now: int, log: seq<Hit>)
    requires window >= 0 && Tracks(window, max, key, s, now, log)
    ensures var t := s[key := Bump(window, s, key, now)];
      Tracks(window, max, key, t, now, log) && Tracks(window, max, key, t, now, Logged(window, s, key, max, now, log))
  {
    var b := Bump(window, s, key, now);
    BumpedBucket(window, max, key, s, now, log);
    TracksBucket(window, max, key, s, b, now, log);
    if b.count <= max {
      LogCounted(window, b, log, now);
      AdmitCounted(window, max, b, log, now);
      TracksBucket(window, max, key, s, b, now, log + [Hit(now, b.reset + 1)]);
    }
  }

  // The admissions of a request under this bucket and this limit.
  function LogTouches(window: int, key: string, max: nat, s: Buckets, ts: seq<Touch>, now: int, log: seq<Hit>): seq<Hit>
    decreases |ts|
  {
    if ts == [] then log
    else
      var b := Bump(window, s, ts[0].key, now);
      var log1 := if ts[0].key == key && ts[0].max == max then Logged(window, s, key, max, now, log) else log;
      if b.count > ts[0].max then log1
      else LogTouches(window, key, max, s[ts[0].key := b], ts[1..], now, log1)
  }

  lemma {:induction false} CountedKeepsTracks(window: int, key: string, max: nat, s: Buckets, ts: seq<Touch>, now: int,
                                              log: seq<Hit>)
    requires window >= 0 && Tracks(window, max, key, s, now, log)
    ensures Tracks(window, max, key, Counted(window, s, ts, now).0, now, LogTouches(window, key, max, s, ts, now, log))
    decreases |ts|
  {
    if ts != [] {
      var b := Bump(window, s, ts[0].key, now);
      if ts[0].key == key { BumpKeepsTracks(window, max, key, s, now, log); }
      if b.count <= ts[0].max {
        var log1 := if ts[0].key == key && ts[0].max == max then Logged(window, s, key, max, now, log) else log;
        CountedKeepsTracks(window, key, max, s[ts[0].key := b], ts[1..], now, log1);
      }
    }
  }

  // Pruning keeps a bucket, or drops it because it ended, or evicts it.
  lemma {:induction false} PruneKeepsTracks(cfg: Config, max: nat, key: string, s: Buckets, mid: Buckets, now: int,
      later: int, log: seq<Hit>)
    requires Tracks(cfg.window, max, key, s, now, log) && now <= later && Pruned(cfg, s, mid, later)
    requires key in mid || key !in Running(s, later)
    ensures Tracks(cfg.window, max, key, mid, later, log)
  {
  }

  // ---------------------------------------------------------------- runs of the limiter

  // A request, with what pruning left before it was counted.
  datatype Call = Call(r: Request, now: int, mid: Buckets, v: Verdict)

  ghost predicate StepAt(cfg: Config, stores: seq<Buckets>, calls: seq<Call>, i: nat)
    requires |stores| == |calls| + 1 && i < |calls|
  {
    Pruned(cfg, stores[i], calls[i].mid, calls[i].now) &&
    (stores[i + 1], calls[i].v) == Counted(cfg.window, calls[i].mid, Touches(cfg, calls[i].r), calls[i].now)
  }

  ghost predicate Run(cfg: Config, stores: seq<Buckets>, calls: seq<Call>) {
    |stores| == |calls| + 1 && stores[0] == map[] &&
    (forall i: nat {:trigger StepAt(cfg, stores, calls, i)} :: i < |calls| ==> StepAt(cfg, stores, calls, i)) &&
    forall i, j :: 0 <= i < j < |calls| ==> calls[i].now <= calls[j].now
  }

  predicate EvictedAt(stores: seq<Buckets>, calls: seq<Call>, key: string, i: nat)
    requires |stores| == |calls| + 1 && i < |calls|
  {
    key in Running(stores[i], calls[i].now) && key !in calls[i].mid
  }

  // What the first n requests were admitted for under this bucket and this limit.
  function AdmittedBy(cfg: Config, calls: seq<Call>, key: string, max: nat, n: nat): seq<Hit>
    requires n <= |calls|
  {
    if n == 0 then []
    else
      var c := calls[n - 1];
      LogTouches(cfg.window, key, max, c.mid, Touches(cfg, c.r), c.now, AdmittedBy(cfg, calls, key, max, n - 1))
  }

  lemma {:induction false} RunTracks(cfg: Config, stores: seq<Buckets>, calls: seq<Call>, key: string, max: nat,
      n: nat, now: int)
    requires Run(cfg, stores, calls) && cfg.window >= 0 && n <= |calls| && (n > 0 ==> now == calls[n - 1].now)
    requires forall i: nat :: i < n ==> !EvictedAt(stores, calls, key, i)
    ensures Tracks(cfg.window, max, key, stores[n], now, AdmittedBy(cfg, calls, key, max, n))
  {
    if n > 0 {
      var c := calls[n - 1];
      assert StepAt(cfg, stores, calls, n - 1) && !EvictedAt(stores, calls, key, n - 1);
      var before := if n > 1 then calls[n - 2].now else now;
      var log := AdmittedBy(cfg, calls, key, max, n - 1);
      RunTracks(cfg, stores, calls, key, max, n - 1, before);
      PruneKeepsTracks(cfg, max, key, stores[n - 1], c.mid, before, now, log);
      CountedKeepsTracks(cfg.window, key, max, c.mid, Touches(cfg, c.r), now, log);
    }
  }

  // Main result: a bucket that is never evicted admits at most twice its limit in
  // any stretch no longer than its window, even if senders, sites and callers
  // happen to share it.
  lemma {:induction false} BucketAdmitsAtMostTwice(cfg: Config, stores: seq<Buckets>, calls: seq<Call>, key: string,
      max: nat, from: int)
    requires Run(cfg, stores, calls) && cfg.window >= 0
    requires forall i: nat :: i < |calls| ==> !EvictedAt(stores, calls, key, i)
    ensures CountBetween(AdmittedBy(cfg, calls, key, max, |calls|), from, from + cfg.window + 1) <= 2 * max
  {
    var now := if calls == [] then 0 else calls[|calls| - 1].now;
    RunTracks(cfg, stores, calls, key, max, |calls|, now);
    AtMostTwice(cfg.window + 1, max, AdmittedBy(cfg, calls, key, max, |calls|), from);
  }

  lemma {:induction false} CountedSize(window: int, s: Buckets, ts: seq<Touch>, now: int)
    ensures |Counted(window, s, ts, now).0| <= |s| + |ts|
    decreases |ts|
  {
    if ts != [] {
      var s1 := s[ts[0].key := Bump(window, s, ts[0].key, now)];
      assert s1.Keys == s.Keys + {ts[0].key};
      CountedSize(window, s1, ts[1..], now);
    }
  }

  // The table is back within its bound at each call, and never above it by more
  // than the three buckets that one request counts in.
  lemma {:induction false} TableIsBounded(cfg: Config, stores: seq<Buckets>, calls: seq<Call>, i: nat)
    requires Run(cfg, stores, calls) && cfg.maxBuckets > 0 && i < |calls|
    ensures |calls[i].mid| <= cfg.maxBuckets && |stores[i + 1]| <= cfg.maxBuckets + 3
  {
    assert StepAt(cfg, stores, calls, i);
    CountedSize(cfg.window, calls[i].mid, Touches(cfg, calls[i].r), calls[i].now);
  }

  // ---------------------------------------------------------------- the limiter as a plain counter

  // What a bucket still counts.
  function Count(s: Buckets, key: string, now: int): int {
    if key in s && s[key].reset >= now then s[key].count else 0
  }

  function SenderKey(r: Request): string { if r.site.Some? then r.site.value + ":" + r.actor else "global:" + r.actor }

  // One if the keys are the same, because then the request has just counted there.
  function Again(a: string, b: string): int { if a == b then 1 else 0 }

  lemma BumpCounts(window: int, s: Buckets, key: string, k: string, now: int)
    requires window >= 0
    ensures Bump(window, s, key, now).count == Count(s, key, now) + 1
    ensures Count(s[key := Bump(window, s, key, now)], k, now) == Count(s, k, now) + Again(key, k)
  {
  }

  lemma CallerDecides(cfg: Config, s: Buckets, r: Request, now: int)
    requires cfg.window >= 0
    ensures Counted(cfg.window, s, CallerTouches(cfg, r), now).1 ==
      if cfg.callerMax > 0 && r.caller.Some? && Count(s, "caller:" + r.caller.value, now) + 1 > cfg.callerMax then
        RateLimitedCaller
      else Passed
  {
    if cfg.callerMax > 0 && r.caller.Some? {
      var k := "caller:" + r.caller.value;
      assert CallerTouches(cfg, r) == [Touch(k, cfg.callerMax, RateLimitedCaller)] + [];
      CountFirst(cfg.window, s, Touch(k, cfg.callerMax, RateLimitedCaller), [], now);
      BumpCounts(cfg.window, s, k, k, now);
    }
  }

  lemma SiteDecides(cfg: Config, s: Buckets, r: Request, now: int)
    requires cfg.window >= 0
    ensures Counted(cfg.window, s, SiteTouches(cfg, r) + CallerTouches(cfg, r), now).1 ==
      if cfg.siteMax > 0 && r.site.Some? && Count(s, "site:" + r.site.value, now) + 1 > cfg.siteMax then
        RateLimitedSite
      else if cfg.callerMax > 0 && r.caller.Some? && Count(s, "caller:" + r.caller.value, now) + 1 > cfg.callerMax then
        RateLimitedCaller
      else Passed
  {
    if cfg.siteMax > 0 && r.site.Some? {
      var k := "site:" + r.site.value;
      var t := Touch(k, cfg.siteMax, RateLimitedSite);
      assert SiteTouches(cfg, r) == [t];
      CountFirst(cfg.window, s, t, CallerTouches(cfg, r), now);
      var s1 := s[k := Bump(cfg.window, s, k, now)];
      BumpCounts(cfg.window, s, k, k, now);
      CallerDecides(cfg, s1, r, now);
      if r.caller.Some? {
        assert k[0] == 's' && ("caller:" + r.caller.value)[0] == 'c';
        BumpCounts(cfg.window, s, k, "caller:" + r.caller.value, now);
      }
    } else {
      assert SiteTouches(cfg, r) + CallerTouches(cfg, r) == CallerTouches(cfg, r);
      CallerDecides(cfg, s, r, now);
    }
  }

  // Who is refused, and why, by what the three buckets count: the sender's first,
  // then the site's if it has a cap, then the caller's if it has one.
  ghost predicate Decides(cfg: Config, r: Request, sender: int, site: int, caller: int, v: Verdict) {
    v == if sender + 1 > cfg.max then RateLimited
         else if cfg.siteMax > 0 && r.site.Some? && site + 1 > cfg.siteMax then RateLimitedSite
         else if cfg.callerMax > 0 && r.caller.Some? && caller + 1 > cfg.callerMax then RateLimitedCaller
         else Passed
  }

  function SiteKey(r: Request): string { if r.site.Some? then "site:" + r.site.value else "" }
  function CallerKey(r: Request): string { if r.caller.Some? then "caller:" + r.caller.value else "" }

  lemma CheckDecides(cfg: Config, s: Buckets, r: Request, now: int)
    requires cfg.window >= 0
    ensures Decides(cfg, r, Count(s, SenderKey(r), now),
                    Count(s, SiteKey(r), now) + Again(SenderKey(r), SiteKey(r)),
                    Count(s, CallerKey(r), now) + Again(SenderKey(r), CallerKey(r)),
                    Counted(cfg.window, s, Touches(cfg, r), now).1)
  {
    var k := SenderKey(r);
    var t := Touch(k, cfg.max, RateLimited);
    assert RateKey(r) == k;
    CountFirst(cfg.window, s, t, SiteTouches(cfg, r) + CallerTouches(cfg, r), now);
    BumpCounts(cfg.window, s, k, SiteKey(r), now);
    BumpCounts(cfg.window, s, k, CallerKey(r), now);
    SiteDecides(cfg, s[k := Bump(cfg.window, s, k, now)], r, now);
  }

  // The window that a request falls in, by the requests that came before: the one
  // that is still running, or a new one.
  function WindowAt(window: int, log: seq<Hit>, now: int): int {
    if log != [] && now < log[|log| - 1].end then log[|log| - 1].end else now + window + 1
  }

  function InWindow(window: int, log: seq<Hit>, now: int): nat { CountWindow(log, WindowAt(window, log, now)) }

  // All requests counted in a bucket, refused ones included.
  function CountHits(window: int, key: string, s: Buckets, ts: seq<Touch>, now: int, log: seq<Hit>): seq<Hit>
    decreases |ts|
  {
    if ts == [] then log
    else
      var b := Bump(window, s, ts[0].key, now);
      var log1 := if ts[0].key == key then log + [Hit(now, WindowAt(window, log, now))] else log;
      if b.count > ts[0].max then log1 else CountHits(window, key, s[ts[0].key := b], ts[1..], now, log1)
  }

  function HitsBefore(cfg: Config, calls: seq<Call>, key: string, n: nat): seq<Hit>
    requires n <= |calls|
  {
    if n == 0 then []
    else
      var c := calls[n - 1];
      CountHits(cfg.window, key, c.mid, Touches(cfg, c.r), c.now, HitsBefore(cfg, calls, key, n - 1))
  }

  // A bucket is its own log.
  ghost predicate Mirrors(key: string, s: Buckets, now: int, log: seq<Hit>) {
    (forall i :: 0 <= i < |log| ==> log[i].end <= if key in s then s[key].reset + 1 else now) &&
    (key in s ==>
       log != [] && log[|log| - 1].end == s[key].reset + 1 && s[key].count == CountWindow(log, s[key].reset + 1))
  }

  lemma {:induction false} BucketCountsWindow(window: int, key: string, s: Buckets, now: int, log: seq<Hit>)
    requires window >= 0 && Mirrors(key, s, now, log)
    ensures Count(s, key, now) == InWindow(window, log, now)
  {
    if !(key in s && s[key].reset >= now) { NoSuchWindow(log, now + window + 1); }
  }

  lemma {:induction false} BumpMirrors(window: int, key: string, s: Buckets, now: int, log: seq<Hit>)
    requires window >= 0 && Mirrors(key, s, now, log)
    ensures Mirrors(key, s[key := Bump(window, s, key, now)], now, log + [Hit(now, WindowAt(window, log, now))])
  {
    var h := Hit(now, WindowAt(window, log, now));
    BucketCountsWindow(window, key, s, now, log);
    BumpCounts(window, s, key, key, now);
    CountWindowOneMore(log, h, h.end);
  }

  lemma {:induction false} CountedMirrors(window: int, key: string, s: Buckets, ts: seq<Touch>, now: int, log: seq<Hit>)
    requires window >= 0 && Mirrors(key, s, now, log)
    ensures Mirrors(key, Counted(window, s, ts, now).0, now, CountHits(window, key, s, ts, now, log))
    decreases |ts|
  {
    if ts != [] {
      var b := Bump(window, s, ts[0].key, now);
      if ts[0].key == key { BumpMirrors(window, key, s, now, log); }
      if b.count <= ts[0].max {
        var log1 := if ts[0].key == key then log + [Hit(now, WindowAt(window, log, now))] else log;
        CountedMirrors(window, key, s[ts[0].key := b], ts[1..], now, log1);
      }
    }
  }

  lemma {:induction false} PruneMirrors(cfg: Config, key: string, s: Buckets, mid: Buckets, now: int, later: int,
      log: seq<Hit>)
    requires Mirrors(key, s, now, log) && now <= later && Pruned(cfg, s, mid, later)
    requires key in mid || key !in Running(s, later)
    ensures Mirrors(key, mid, later, log)
  {
  }

  lemma {:induction false} RunMirrors(cfg: Config, stores: seq<Buckets>, calls: seq<Call>, key: string, n: nat,
      now: int)
    requires Run(cfg, stores, calls) && cfg.window >= 0 && n <= |calls| && (n > 0 ==> now == calls[n - 1].now)
    requires forall i: nat :: i < n ==> !EvictedAt(stores, calls, key, i)
    ensures Mirrors(key, stores[n], now, HitsBefore(cfg, calls, key, n))
  {
    if n > 0 {
      var c := calls[n - 1];
      assert StepAt(cfg, stores, calls, n - 1) && !EvictedAt(stores, calls, key, n - 1);
      var before := if n > 1 then calls[n - 2].now else now;
      RunMirrors(cfg, stores, calls, key, n - 1, before);
      PruneMirrors(cfg, key, stores[n - 1], c.mid, before, now, HitsBefore(cfg, calls, key, n - 1));
      CountedMirrors(cfg.window, key, c.mid, Touches(cfg, c.r), now, HitsBefore(cfg, calls, key, n - 1));
    }
  }

  lemma {:induction false} MidCounts(cfg: Config, stores: seq<Buckets>, calls: seq<Call>, key: string, i: nat)
    requires Run(cfg, stores, calls) && cfg.window >= 0 && i < |calls|
    requires forall j: nat :: j <= i ==> !EvictedAt(stores, calls, key, j)
    ensures Count(calls[i].mid, key, calls[i].now) == InWindow(cfg.window, HitsBefore(cfg, calls, key, i), calls[i].now)
  {
    var before := if i > 0 then calls[i - 1].now else calls[i].now;
    assert StepAt(cfg, stores, calls, i) && !EvictedAt(stores, calls, key, i);
    RunMirrors(cfg, stores, calls, key, i, before);
    PruneMirrors(cfg, key, stores[i], calls[i].mid, before, calls[i].now, HitsBefore(cfg, calls, key, i));
    BucketCountsWindow(cfg.window, key, calls[i].mid, calls[i].now, HitsBefore(cfg, calls, key, i));
  }

  ghost predicate NeverEvicted(stores: seq<Buckets>, calls: seq<Call>, key: string, i: nat)
    requires |stores| == |calls| + 1 && i < |calls|
  {
    forall j: nat :: j <= i ==> !EvictedAt(stores, calls, key, j)
  }

  // Main result: as long as its buckets are not evicted, every request is decided by
  // how many requests were counted before it in the windows that are running.
  lemma {:induction false} LimiterIsPlainCounter(cfg: Config, stores: seq<Buckets>, calls: seq<Call>, i: nat)
    requires Run(cfg, stores, calls) && cfg.window >= 0 && i < |calls|
    requires NeverEvicted(stores, calls, SenderKey(calls[i].r), i)
    requires calls[i].r.site.Some? ==> NeverEvicted(stores, calls, SiteKey(calls[i].r), i)
    requires calls[i].r.caller.Some? ==> NeverEvicted(stores, calls, CallerKey(calls[i].r), i)
    ensures var r, now, w := calls[i].r, calls[i].now, cfg.window;
      Decides(cfg, r, InWindow(w, HitsBefore(cfg, calls, SenderKey(r), i), now),
              InWindow(w, HitsBefore(cfg, calls, SiteKey(r), i), now) + Again(SenderKey(r), SiteKey(r)),
              InWindow(w, HitsBefore(cfg, calls, CallerKey(r), i), now) + Again(SenderKey(r), CallerKey(r)),
              calls[i].v)
  {
    var r := calls[i].r;
    assert StepAt(cfg, stores, calls, i);
    MidCounts(cfg, stores, calls, SenderKey(r), i);
    if r.site.Some? { MidCounts(cfg, stores, calls, SiteKey(r), i); }
    if r.caller.Some? { MidCounts(cfg, stores, calls, CallerKey(r), i); }
    CheckDecides(cfg, calls[i].mid, r, calls[i].now);
  }
}
