// How the registry's gates together keep a message from running twice: required
// tags, nonce, timestamp and the cache of responses, in the order of `route`.
module AtMostOnce {
  import opened Wrappers
  import opened TtlStore
  import opened Idempotency
  import N = NonceGate

  // `scope` is what the cache key holds beside the request id: action, sender, site and host.
  datatype Msg = Msg(nonce: Option<string>, rid: Option<string>, ts: Option<int>, scope: string)

  datatype Config = Config(nonce: N.Config, requireTs: bool, drift: int, idemTtl: int, idemMax: nat)

  // Raised: the handler ran into an error, and its response was not recorded.
  datatype Outcome = Executed | Raised | Replayed | Denied

  predicate Ran(o: Outcome) { o == Executed || o == Raised }

  predicate TimestampOk(cfg: Config, m: Msg, now: int) {
    !cfg.requireTs || (m.ts.Some? && now - m.ts.value <= cfg.drift && m.ts.value - now <= cfg.drift)
  }

  // A message with an empty Request-Id is never cached; one without any is turned
  // away before all gates.
  predicate Keyed(m: Msg) { m.rid.Some? && m.rid.value != "" }

  function CacheKey(m: Msg): string
    requires Keyed(m)
  {
    m.rid.value + "|" + m.scope
  }

  // A message that comes in.  `auth` says whether its action needs authorisation,
  // `before` and `after` how the checks before and after nonce and timestamp end,
  // `raises` and `resp` how the handler ends if it runs;
  // ask, p1 and p2 are what the nonce gate and the two prunings of the cache did;
  // `reply` is the response that goes back, if a handler gave it.
  datatype Arrival = Arrival(m: Msg, now: int, auth: bool, before: bool, after: bool, raises: bool, resp: Response,
                             ask: N.Event, p1: Cache, p2: Cache, outcome: Outcome, reply: Option<Response>)

  predicate Asked(a: Arrival) {
    if a.m.rid.Some? && a.before && a.auth then
      a.ask.Ask? && a.ask.nonce == a.m.nonce && a.ask.rid == a.m.rid && a.ask.now == a.now
    else a.ask == N.Idle(a.now)
  }

  predicate Admitted(cfg: Config, a: Arrival) {
    a.m.rid.Some? && a.before && a.after &&
    (a.auth ==> a.ask.Ask? && !a.ask.v.Rejected? && TimestampOk(cfg, a.m, a.now))
  }

  function Entry(cfg: Config, a: Arrival): Item<Cached> { Item(Cached(a.resp, a.now), a.now + cfg.idemTtl) }

  // The cache first; then the handler, whose response is recorded unless it raised an error.
  ghost predicate Answered(cfg: Config, c: Cache, d: Cache, m: Msg, now: int, raises: bool, resp: Response,
                           p1: Cache, p2: Cache, outcome: Outcome, reply: Option<Response>)
    requires Keyed(m)
  {
    Pruned(c, p1, cfg.idemMax, now) &&
    if CacheKey(m) in p1 then d == p1 && outcome == Replayed && reply == Some(p1[CacheKey(m)].value.resp)
    else if raises then d == p1 && outcome == Raised && reply == None
    else
      Pruned(p1, p2, cfg.idemMax, now) && d == p2[CacheKey(m) := Item(Cached(resp, now), now + cfg.idemTtl)] &&
      outcome == Executed && reply == Some(resp)
  }

  ghost predicate CacheStep(cfg: Config, c: Cache, d: Cache, a: Arrival)
    requires Keyed(a.m)
  {
    Answered(cfg, c, d, a.m, a.now, a.raises, a.resp, a.p1, a.p2, a.outcome, a.reply)
  }

  ghost predicate Settled(cfg: Config, c: Cache, d: Cache, a: Arrival) {
    if !Admitted(cfg, a) then d == c && a.outcome == Denied && a.reply == None
    else if !Keyed(a.m) then
      d == c && (a.outcome, a.reply) == if a.raises then (Raised, None) else (Executed, Some(a.resp))
    else CacheStep(cfg, c, d, a)
  }

  ghost predicate RouteStep(cfg: Config, g: N.Gate, h: N.Gate, c: Cache, d: Cache, a: Arrival) {
    Asked(a) && N.EventStep(cfg.nonce, g, h, a.ask) && Settled(cfg, c, d, a)
  }

  class Registry {
    const cfg: Config
    const auth: N.Auth
    const idem: Idem

    ghost predicate Valid() reads this, idem {
      auth.cfg == cfg.nonce && idem.ttl == cfg.idemTtl && idem.maxEntries == cfg.idemMax && idem.Valid()
    }

    constructor (cfg: Config, auth: N.Auth, idem: Idem)
      requires auth.cfg == cfg.nonce && idem.ttl == cfg.idemTtl && idem.maxEntries == cfg.idemMax && idem.Valid()
      ensures Valid() && this.auth == auth && this.idem == idem && this.cfg == cfg
    {
      this.cfg, this.auth, this.idem := cfg, auth, idem;
    }

    method Enforce(m: Msg, now: int, opens: bool) returns (ok: bool, ghost ask: N.Event)
      requires Valid()
      modifies auth
      ensures ask.Ask? && ask.nonce == m.nonce && ask.rid == m.rid && ask.now == now
      ensures N.EventStep(cfg.nonce, old(auth.State()), auth.State(), ask)
      ensures ok == (!ask.v.Rejected? && TimestampOk(cfg, m, now))
    {
      ghost var g := auth.State();
      var v := auth.RequireNonce(m.nonce, m.rid, now, opens);
      ghost var p :| N.StepVia(cfg.nonce, g, p, auth.State(), m.nonce, m.rid, now, opens, v);
      ask := N.Ask(m.nonce, m.rid, now, opens, p, v);
      ok := !v.Rejected? && TimestampOk(cfg, m, now);
    }

    method Answer(m: Msg, now: int, raises: bool, resp: Response)
        returns (outcome: Outcome, reply: Option<Response>, ghost p1: Cache, ghost p2: Cache)
      requires Valid() && Keyed(m)
      modifies idem
      ensures idem.Valid()
      ensures Answered(cfg, old(idem.store), idem.store, m, now, raises, resp, p1, p2, outcome, reply)
    {
      var seen := idem.Lookup(CacheKey(m), now);
      p1, p2 := idem.store, idem.store;
      if seen.Some? { return Replayed, seen, p1, p2; }
      if raises { return Raised, None, p1, p2; }
      idem.Record(CacheKey(m), resp, now);
      p2 :| Pruned(p1, p2, cfg.idemMax, now) &&
            idem.store == p2[CacheKey(m) := Item(Cached(resp, now), now + cfg.idemTtl)];
      outcome, reply := Executed, Some(resp);
    }

    // `needsAuth`, `before`, `after`, `raises` and `resp` come from code outside this model.
    method Route(m: Msg, now: int, opens: bool, needsAuth: bool, before: bool, after: bool, raises: bool,
                 resp: Response)
        returns (outcome: Outcome, reply: Option<Response>, ghost a: Arrival)
      requires Valid()
      modifies auth, idem
      ensures Valid() && a.m == m && a.now == now && a.auth == needsAuth && a.before == before && a.after == after
      ensures a.raises == raises && a.resp == resp
      ensures outcome == a.outcome && reply == a.reply
      ensures RouteStep(cfg, old(auth.State()), auth.State(), old(idem.store), idem.store, a)
    {
      a := Arrival(m, now, needsAuth, before, after, raises, resp, N.Idle(now), map[], map[], Denied, None);
      if m.rid.None? || !before { return Denied, None, a; }
      if needsAuth {
        var ok;
        ghost var ask;
        ok, ask := Enforce(m, now, opens);
        a := a.(ask := ask);
        if !ok { return Denied, None, a; }
      }
      if !after { return Denied, None, a; }
      if !Keyed(m) {
        outcome, reply := if raises then Raised else Executed, if raises then None else Some(resp);
        return outcome, reply, a.(outcome := outcome, reply := reply);
      }
      ghost var p1, p2;
      outcome, reply, p1, p2 := Answer(m, now, raises, resp);
      a := a.(p1 := p1, p2 := p2, outcome := outcome, reply := reply);
    }
  }

  // ---------------------------------------------------------------- what a message gets

  // The nonce gate turned the message away.
  predicate NonceRefused(a: Arrival) { a.ask.Ask? && a.ask.v.Rejected? }

  // Who is denied: a message without Request-Id, one that a check outside objects to,
  // and, where authorisation is needed, one whose nonce is refused or whose timestamp
  // is missing or further from now than the clock skew.  Nobody else is.
  lemma DeniedExactly(cfg: Config, g: N.Gate, h: N.Gate, c: Cache, d: Cache, a: Arrival)
    requires RouteStep(cfg, g, h, c, d, a)
    ensures a.outcome == Denied <==>
      a.m.rid == None || !a.before || !a.after ||
      (a.auth &&
       (NonceRefused(a) ||
        (cfg.requireTs && (a.m.ts.None? || a.now - a.m.ts.value > cfg.drift || a.m.ts.value - a.now > cfg.drift))))
    ensures a.outcome == Denied ==> a.reply == None && d == c
  {
  }

  // What everybody else gets: the cached response if the request has one, and
  // otherwise whatever its handler ends with.
  lemma OthersAreAnswered(cfg: Config, g: N.Gate, h: N.Gate, c: Cache, d: Cache, a: Arrival)
    requires RouteStep(cfg, g, h, c, d, a) && a.outcome != Denied
    ensures a.m.rid.Some?
    ensures a.m.rid.value != "" ==>
      Pruned(c, a.p1, cfg.idemMax, a.now) &&
      (a.outcome == Replayed <==> a.m.rid.value + "|" + a.m.scope in a.p1) &&
      (a.outcome == Replayed ==> a.reply == Some(a.p1[a.m.rid.value + "|" + a.m.scope].value.resp))
    ensures a.m.rid.value == "" ==> a.outcome != Replayed && d == c
    ensures a.outcome != Replayed ==>
      if a.raises then a.outcome == Raised && a.reply == None else a.outcome == Executed && a.reply == Some(a.resp)
  {
  }

  // A message asks the nonce gate, with its own nonce and Request-Id, exactly if
  // authorisation is needed and nothing objected before; else the gate stays as it is.
  lemma GateIsAskedExactly(cfg: Config, g: N.Gate, h: N.Gate, c: Cache, d: Cache, a: Arrival)
    requires RouteStep(cfg, g, h, c, d, a)
    ensures a.ask.Ask? <==> a.m.rid.Some? && a.before && a.auth
    ensures if a.ask.Ask? then
              a.ask.nonce == a.m.nonce && a.ask.rid == a.m.rid && a.ask.now == a.now &&
              N.NonceStep(cfg.nonce, g, h, a.m.nonce, a.m.rid, a.now, a.ask.opens, a.ask.v)
            else h == g
  {
    if a.ask.Ask? {
      assert N.StepVia(cfg.nonce, g, a.ask.mid, h, a.m.nonce, a.m.rid, a.now, a.ask.opens, a.ask.v);
    }
  }

  // ---------------------------------------------------------------- runs of the registry

  ghost predicate StepAt(cfg: Config, gates: seq<N.Gate>, caches: seq<Cache>, arrivals: seq<Arrival>, i: nat)
    requires |gates| == |caches| == |arrivals| + 1 && i < |arrivals|
  {
    RouteStep(cfg, gates[i], gates[i + 1], caches[i], caches[i + 1], arrivals[i])
  }

  ghost predicate Run(cfg: Config, gates: seq<N.Gate>, caches: seq<Cache>, arrivals: seq<Arrival>) {
    |gates| == |caches| == |arrivals| + 1 && gates[0] == N.NewGate && caches[0] == map[] &&
    (forall i: nat {:trigger StepAt(cfg, gates, caches, arrivals, i)} ::
       i < |arrivals| ==> StepAt(cfg, gates, caches, arrivals, i)) &&
    forall i, j :: 0 <= i < j < |arrivals| ==> arrivals[i].now <= arrivals[j].now
  }

  function Asks(arrivals: seq<Arrival>): (events: seq<N.Event>)
    ensures |events| == |arrivals| && forall i :: 0 <= i < |arrivals| ==> events[i] == arrivals[i].ask
  {
    seq(|arrivals|, i requires 0 <= i < |arrivals| => arrivals[i].ask)
  }

  lemma {:induction false} GateRuns(cfg: Config, gates: seq<N.Gate>, caches: seq<Cache>, arrivals: seq<Arrival>)
    requires Run(cfg, gates, caches, arrivals)
    ensures N.Run(cfg.nonce, gates, Asks(arrivals)) && N.NoRestart(Asks(arrivals))
    ensures forall i: nat :: i < |arrivals| ==> Asks(arrivals)[i].now == arrivals[i].now
  {
    var events := Asks(arrivals);
    forall i: nat | i < |arrivals|
      ensures N.StepAt(cfg.nonce, gates, events, i) && events[i].now == arrivals[i].now && !events[i].Restart?
    {
      assert StepAt(cfg, gates, caches, arrivals, i);
    }
  }

  predicate Records(a: Arrival) { a.outcome == Executed && Keyed(a.m) }

  function Record(cfg: Config, a: Arrival): Put<Cached>
    requires Keyed(a.m)
  {
    Put(CacheKey(a.m), Entry(cfg, a))
  }

  // The responses recorded by the first n messages.
  function Recorded(cfg: Config, arrivals: seq<Arrival>, n: nat): seq<Put<Cached>>
    requires n <= |arrivals|
  {
    if n == 0 then []
    else if Records(arrivals[n - 1]) then Recorded(cfg, arrivals, n - 1) + [Record(cfg, arrivals[n - 1])]
    else Recorded(cfg, arrivals, n - 1)
  }

  lemma {:induction false} CacheKeepsFaithful(cfg: Config, c: Cache, d: Cache, a: Arrival, log: seq<Put<Cached>>)
    requires Keyed(a.m) && CacheStep(cfg, c, d, a) && Faithful(cfg.idemMax, a.now, c, log)
    ensures Faithful(cfg.idemMax, a.now, d, if a.outcome == Executed then log + [Record(cfg, a)] else log)
  {
    PruneKeepsFaithful(cfg.idemMax, a.now, c, a.p1, log);
    if a.outcome == Executed {
      PruneKeepsFaithful(cfg.idemMax, a.now, a.p1, a.p2, log);
      if CacheKey(a.m) in a.p2 { PrunedIsLive(a.p1, a.p2, cfg.idemMax, a.now, CacheKey(a.m)); }
      PutKeepsFaithful(cfg.idemMax, a.now, a.p2, log, Record(cfg, a));
    }
  }

  lemma {:induction false} StepKeepsFaithful(cfg: Config, g: N.Gate, h: N.Gate, c: Cache, d: Cache, a: Arrival,
      log: seq<Put<Cached>>)
    requires RouteStep(cfg, g, h, c, d, a) && Faithful(cfg.idemMax, a.now, c, log)
    ensures Faithful(cfg.idemMax, a.now, d, if Records(a) then log + [Record(cfg, a)] else log)
  {
    if Keyed(a.m) && Admitted(cfg, a) { CacheKeepsFaithful(cfg, c, d, a, log); }
  }

  lemma {:induction false} CacheIsFaithful(cfg: Config, gates: seq<N.Gate>, caches: seq<Cache>, arrivals: seq<Arrival>,
                                           n: nat, now: int)
    requires Run(cfg, gates, caches, arrivals) && n <= |arrivals| && (n > 0 ==> arrivals[n - 1].now <= now)
    ensures Faithful(cfg.idemMax, now, caches[n], Recorded(cfg, arrivals, n))
  {
    if n > 0 {
      assert StepAt(cfg, gates, caches, arrivals, n - 1);
      CacheIsFaithful(cfg, gates, caches, arrivals, n - 1, arrivals[n - 1].now);
      StepKeepsFaithful(cfg, gates[n - 1], gates[n], caches[n - 1], caches[n], arrivals[n - 1],
                        Recorded(cfg, arrivals, n - 1));
    }
  }

  lemma {:induction false} RecordedAt(cfg: Config, arrivals: seq<Arrival>, i: nat, n: nat)
    requires i < n <= |arrivals| && Records(arrivals[i])
    ensures Record(cfg, arrivals[i]) in Recorded(cfg, arrivals, n)
  {
    if i < n - 1 { RecordedAt(cfg, arrivals, i, n - 1); }
  }

  // ---------------------------------------------------------------- main results

  lemma {:induction false} StepReplays(cfg: Config, g: N.Gate, h: N.Gate, c: Cache, d: Cache, a: Arrival,
      log: seq<Put<Cached>>,
                    x: Put<Cached>)
    requires RouteStep(cfg, g, h, c, d, a) && Keyed(a.m) && x.key == CacheKey(a.m)
    requires Faithful(cfg.idemMax, a.now, c, log) && x in log && x.item.exp >= a.now
    requires !Crowded(cfg.idemMax, log, x.item.exp)
    ensures !Ran(a.outcome)
  {
    if Admitted(cfg, a) { PruningKeeps(c, a.p1, cfg.idemMax, a.now, log, x.key); }
  }

  // Within the lifetime of a cached response its request does not run again,
  // unless at least `idemMax` other requests ran in the same second or later.
  lemma {:induction false} CachedIsNotRerun(cfg: Config, gates: seq<N.Gate>, caches: seq<Cache>,
      arrivals: seq<Arrival>, i: nat, j: nat)
    requires Run(cfg, gates, caches, arrivals) && i < j < |arrivals| && arrivals[i].m == arrivals[j].m
    requires Records(arrivals[i]) && arrivals[j].now <= arrivals[i].now + cfg.idemTtl
    requires !Crowded(cfg.idemMax, Recorded(cfg, arrivals, j), arrivals[i].now + cfg.idemTtl)
    ensures !Ran(arrivals[j].outcome)
  {
    CacheIsFaithful(cfg, gates, caches, arrivals, j, arrivals[j].now);
    RecordedAt(cfg, arrivals, i, j);
    assert StepAt(cfg, gates, caches, arrivals, j);
    StepReplays(cfg, gates[j], gates[j + 1], caches[j], caches[j + 1], arrivals[j], Recorded(cfg, arrivals, j),
                Record(cfg, arrivals[i]));
  }

  // The nonce of the message is none that another message brought within its lifetime.
  predicate OwnNonce(cfg: Config, arrivals: seq<Arrival>, j: nat)
    requires j < |arrivals|
  {
    if arrivals[j].m.nonce.None? then !cfg.nonce.required
    else N.Unused(cfg.nonce, Asks(arrivals), j, arrivals[j].m.nonce.value, arrivals[j].now)
  }

  predicate OnTime(cfg: Config, a: Arrival) {
    cfg.requireTs ==> a.m.ts.Some? && a.now - cfg.drift <= a.m.ts.value <= a.now + cfg.drift
  }

  // Main result: over every run, a message with a Request-Id that no check outside
  // objects to is answered if it needs no authorisation, or if its nonce is unused
  // and its timestamp on time, unless the nonce database cannot be opened.
  lemma {:induction false} HonestIsAnswered(cfg: Config, gates: seq<N.Gate>, caches: seq<Cache>,
      arrivals: seq<Arrival>, j: nat)
    requires Run(cfg, gates, caches, arrivals) && j < |arrivals|
    requires arrivals[j].m.rid.Some? && arrivals[j].before && arrivals[j].after
    requires arrivals[j].auth ==> OwnNonce(cfg, arrivals, j) && OnTime(cfg, arrivals[j])
    ensures arrivals[j].outcome == Denied ==>
      arrivals[j].auth && cfg.nonce.useDb && arrivals[j].ask.Ask? && !arrivals[j].ask.opens &&
      arrivals[j].ask.v == N.DB_DOWN
  {
    var a := arrivals[j];
    assert StepAt(cfg, gates, caches, arrivals, j);
    DeniedExactly(cfg, gates[j], gates[j + 1], caches[j], caches[j + 1], a);
    GateRuns(cfg, gates, caches, arrivals);
    if a.auth {
      GateIsAskedExactly(cfg, gates[j], gates[j + 1], caches[j], caches[j + 1], a);
      if a.m.nonce.None? {
        N.MissingNonce(cfg.nonce, gates, Asks(arrivals), j);
      } else {
        N.UnusedNonceIsFresh(cfg.nonce, gates, Asks(arrivals), j);
      }
    }
  }

  lemma {:induction false} RecordedFrom(cfg: Config, arrivals: seq<Arrival>, n: nat, x: Put<Cached>) returns (i: nat)
    requires n <= |arrivals| && x in Recorded(cfg, arrivals, n)
    ensures i < n && Records(arrivals[i]) && x == Record(cfg, arrivals[i])
  {
    if Records(arrivals[n - 1]) && x == Record(cfg, arrivals[n - 1]) {
      i := n - 1;
    } else {
      i := RecordedFrom(cfg, arrivals, n - 1, x);
    }
  }

  lemma {:induction false} StepRepliesFromLog(cfg: Config, c: Cache, a: Arrival, log: seq<Put<Cached>>)
    requires Keyed(a.m) && Pruned(c, a.p1, cfg.idemMax, a.now) && Logged(c, log) && CacheKey(a.m) in a.p1
    ensures Put(CacheKey(a.m), a.p1[CacheKey(a.m)]) in log && a.p1[CacheKey(a.m)].exp >= a.now
  {
    PrunedIsLive(c, a.p1, cfg.idemMax, a.now, CacheKey(a.m));
  }

  // Main result: whatever is replayed is the response that an earlier execution of
  // the same request in the same scope gave, word for word, within its lifetime.
  lemma {:induction false} ReplayIsRecorded(cfg: Config, gates: seq<N.Gate>, caches: seq<Cache>,
      arrivals: seq<Arrival>, j: nat) returns (i: nat)
    requires Run(cfg, gates, caches, arrivals) && j < |arrivals| && arrivals[j].outcome == Replayed
    ensures i < j && arrivals[i].outcome == Executed && Keyed(arrivals[i].m) && Keyed(arrivals[j].m)
    ensures CacheKey(arrivals[i].m) == CacheKey(arrivals[j].m)
    ensures arrivals[j].reply == arrivals[i].reply == Some(arrivals[i].resp)
    ensures arrivals[j].now <= arrivals[i].now + cfg.idemTtl
  {
    var a := arrivals[j];
    assert StepAt(cfg, gates, caches, arrivals, j);
    OthersAreAnswered(cfg, gates[j], gates[j + 1], caches[j], caches[j + 1], a);
    CacheIsFaithful(cfg, gates, caches, arrivals, j, a.now);
    StepRepliesFromLog(cfg, caches[j], a, Recorded(cfg, arrivals, j));
    i := RecordedFrom(cfg, arrivals, j, Put(CacheKey(a.m), a.p1[CacheKey(a.m)]));
    assert StepAt(cfg, gates, caches, arrivals, i);
    OthersAreAnswered(cfg, gates[i], gates[i + 1], caches[i], caches[i + 1], arrivals[i]);
  }

  lemma ExecutedStep(cfg: Config, g: N.Gate, h: N.Gate, c: Cache, d: Cache, a: Arrival)
    requires RouteStep(cfg, g, h, c, d, a) && Ran(a.outcome) && a.auth && cfg.requireTs
    ensures a.ask.Ask? && !a.ask.v.Rejected? && a.ask.nonce == a.m.nonce && a.ask.rid == a.m.rid
    ensures a.m.ts.Some? && a.m.ts.value - cfg.drift <= a.now <= a.m.ts.value + cfg.drift
    ensures N.EventStep(cfg.nonce, g, h, a.ask)
  {
  }

  // Both executions of a message lie within the clock skew of its timestamp.
  lemma {:induction false} ExecutionsAreClose(cfg: Config, gates: seq<N.Gate>, caches: seq<Cache>,
      arrivals: seq<Arrival>, i: nat, j: nat)
    requires Run(cfg, gates, caches, arrivals) && i < j < |arrivals| && arrivals[i].m == arrivals[j].m
    requires Ran(arrivals[i].outcome) && Ran(arrivals[j].outcome)
    requires arrivals[i].auth && arrivals[j].auth && cfg.requireTs
    ensures arrivals[i].m.ts.Some? && arrivals[j].now <= arrivals[i].m.ts.value + cfg.drift
    ensures arrivals[j].now <= arrivals[i].now + 2 * cfg.drift
    ensures arrivals[i].m.ts.value <= arrivals[i].now ==> arrivals[j].now <= arrivals[i].now + cfg.drift
  {
    assert StepAt(cfg, gates, caches, arrivals, i);
    assert StepAt(cfg, gates, caches, arrivals, j);
    ExecutedStep(cfg, gates[i], gates[i + 1], caches[i], caches[i + 1], arrivals[i]);
    ExecutedStep(cfg, gates[j], gates[j + 1], caches[j], caches[j + 1], arrivals[j]);
  }

  // No crowd has pushed out the cached response of the first execution.
  ghost predicate Room(cfg: Config, arrivals: seq<Arrival>, i: nat, j: nat)
    requires i < |arrivals| && j <= |arrivals|
  {
    !Crowded(cfg.idemMax, Recorded(cfg, arrivals, j), arrivals[i].now + cfg.idemTtl)
  }

  // The response lasts until the timestamp stops being acceptable.  As a message
  // runs only while its timestamp is within the clock skew, a lifetime of twice the
  // skew is always enough, and one skew is for a timestamp that is not ahead.
  predicate LongEnough(cfg: Config, a: Arrival)
    requires a.m.ts.Some?
  {
    a.m.ts.value + cfg.drift <= a.now + cfg.idemTtl
  }

  // Main result: once an authenticated message with a Request-Id was executed, its
  // handler never runs again, at whatever later time its copies arrive.
  lemma {:induction false} NeverRunsTwice(cfg: Config, gates: seq<N.Gate>, caches: seq<Cache>,
      arrivals: seq<Arrival>, i: nat, j: nat)
    requires Run(cfg, gates, caches, arrivals) && i < j < |arrivals| && arrivals[i].m == arrivals[j].m
    requires arrivals[i].auth && arrivals[j].auth && cfg.requireTs
    requires arrivals[i].m.rid != Some("") && arrivals[i].outcome == Executed
    requires arrivals[i].m.ts.Some? ==> LongEnough(cfg, arrivals[i])
    requires Room(cfg, arrivals, i, j)
    ensures !Ran(arrivals[j].outcome)
  {
    assert StepAt(cfg, gates, caches, arrivals, i);
    if Ran(arrivals[j].outcome) {
      ExecutionsAreClose(cfg, gates, caches, arrivals, i, j);
      CachedIsNotRerun(cfg, gates, caches, arrivals, i, j);
    }
  }

  predicate NonceRoom(cfg: N.Config, events: seq<N.Event>, i: nat, j: nat)
    requires i < |events| && j <= |events|
  {
    cfg.useDb || !Crowded(cfg.max, N.Before(cfg, events, j), events[i].now + cfg.ttl)
  }

  lemma {:induction false} OtherRequestRejected(cfg: N.Config, gates: seq<N.Gate>, events: seq<N.Event>, i: nat, j: nat)
    requires N.Run(cfg, gates, events) && N.NoRestart(events) && i < j < |events| && N.IsRecorded(events[i])
    requires events[j].Ask? && events[j].nonce == events[i].nonce && events[j].rid != events[i].rid
    requires events[j].now <= events[i].now + cfg.ttl && NonceRoom(cfg, events, i, j)
    ensures events[j].v.Rejected?
  {
    if cfg.useDb {
      N.DatabaseNeverForgets(cfg, gates, events, i, j);
    } else {
      N.NonceIsRemembered(cfg, gates, events, i, j);
    }
  }

  lemma {:induction false} AskedAt(cfg: Config, gates: seq<N.Gate>, caches: seq<Cache>, arrivals: seq<Arrival>, i: nat)
    requires Run(cfg, gates, caches, arrivals) && i < |arrivals|
    ensures var a := arrivals[i];
      Asked(a) && a.ask.now == a.now && (a.auth && (a.ask.Ask? ==> a.ask.v.Rejected?) ==> a.outcome == Denied)
  {
    assert StepAt(cfg, gates, caches, arrivals, i);
  }

  // And the nonce that a request brought serves no other request for its lifetime.
  lemma {:induction false} NonceServesOneRequest(cfg: Config, gates: seq<N.Gate>, caches: seq<Cache>,
      arrivals: seq<Arrival>, i: nat, j: nat)
    requires Run(cfg, gates, caches, arrivals) && i < j < |arrivals| && N.IsRecorded(arrivals[i].ask)
    requires arrivals[j].auth && arrivals[j].m.nonce == arrivals[i].m.nonce
    requires arrivals[j].m.rid != arrivals[i].m.rid && arrivals[j].now <= arrivals[i].now + cfg.nonce.ttl
    requires NonceRoom(cfg.nonce, Asks(arrivals), i, j)
    ensures arrivals[j].outcome == Denied
  {
    GateRuns(cfg, gates, caches, arrivals);
    AskedAt(cfg, gates, caches, arrivals, i);
    AskedAt(cfg, gates, caches, arrivals, j);
    if arrivals[j].ask.Ask? { OtherRequestRejected(cfg.nonce, gates, Asks(arrivals), i, j); }
  }

  // ---------------------------------------------------------------- both conditions are needed

  function OneNonce(cfg: N.Config, n: string, rid: N.Rid): N.Gate { N.Gate(map[n := Item(rid, cfg.ttl)], map[], false) }

  // The same nonce with the same Request-Id passes twice.
  lemma SameRequestPasses(cfg: N.Config, n: string, r: string, later: int)
    requires cfg.max >= 1 && !cfg.useDb && 0 <= later <= cfg.ttl
    ensures N.EventStep(cfg, N.NewGate, OneNonce(cfg, n, Some(r)), N.Ask(Some(n), Some(r), 0, true, map[], N.Fresh))
    ensures N.EventStep(cfg, OneNonce(cfg, n, Some(r)), OneNonce(cfg, n, Some(r)),
                        N.Ask(Some(n), Some(r), later, true, OneNonce(cfg, n, Some(r)).store, N.Again))
  {
    var s := OneNonce(cfg, n, Some(r)).store;
    NothingToPrune<N.Rid>(map[], cfg.max, 0);
    NothingToPrune(s, cfg.max, 0);
    NothingToPrune(s, cfg.max, later);
  }

  // One message twice: at time 0, when its handler may raise an error, and again later.
  function Twice(cfg: Config, m: Msg, later: int, raises: bool): seq<Arrival>
    requires m.nonce.Some?
  {
    var ask0 := N.Ask(m.nonce, m.rid, 0, true, map[], N.Fresh);
    var ask1 := N.Ask(m.nonce, m.rid, later, true, OneNonce(cfg.nonce, m.nonce.value, m.rid).store, N.Again);
    [Arrival(m, 0, true, true, true, raises, "", ask0, map[], map[], if raises then Raised else Executed,
             if raises then None else Some("")),
     Arrival(m, later, true, true, true, false, "", ask1, map[], map[], Executed, Some(""))]
  }

  predicate Small(cfg: Config) {
    cfg.nonce.max >= 1 && cfg.idemMax >= 1 && !cfg.nonce.useDb && cfg.requireTs
  }

  // The bound is exact: for every acceptable timestamp, a cache that lets go of the
  // response before the timestamp runs out lets the message run again, however long
  // nonces are remembered.
  lemma ShortCacheRunsTwice(cfg: Config, ts: int)
      returns (gates: seq<N.Gate>, caches: seq<Cache>, arrivals: seq<Arrival>)
    requires Small(cfg) && -cfg.drift <= ts <= cfg.drift && 0 <= cfg.idemTtl < ts + cfg.drift <= cfg.nonce.ttl
    ensures Run(cfg, gates, caches, arrivals) && |arrivals| == 2 && arrivals[0].m == arrivals[1].m
    ensures Keyed(arrivals[0].m) && arrivals[0].auth && arrivals[1].auth && Room(cfg, arrivals, 0, 1)
    ensures arrivals[0].outcome == Executed && arrivals[1].outcome == Executed
    ensures arrivals[0].now == 0 && arrivals[0].m.ts == Some(ts) && !LongEnough(cfg, arrivals[0])
  {
    var m := Msg(Some("n"), Some("r"), Some(ts), "");
    var later := ts + cfg.drift;
    arrivals := Twice(cfg, m, later, false);
    var gate := OneNonce(cfg.nonce, "n", Some("r"));
    gates := [N.NewGate, gate, gate];
    SameRequestPasses(cfg.nonce, "n", "r", later);
    var k := CacheKey(m);
    caches := [map[], map[k := Entry(cfg, arrivals[0])], map[k := Entry(cfg, arrivals[1])]];
    ExpiredCache(cfg, arrivals[0], arrivals[1]);
    RoomForOne(cfg, arrivals);
  }

  lemma {:induction false} RoomForOne(cfg: Config, arrivals: seq<Arrival>)
    requires |arrivals| >= 1 && Records(arrivals[0]) && cfg.idemMax >= 1
    ensures Room(cfg, arrivals, 0, 1)
  {
    assert Recorded(cfg, arrivals, 0) == [] && Recorded(cfg, arrivals, 1) == [Record(cfg, arrivals[0])];
    SinceAtMost(Recorded(cfg, arrivals, 1), arrivals[0].now + cfg.idemTtl);
  }

  // An execution from a cache that pruning empties.
  lemma CachedAlone(cfg: Config, c: Cache, a: Arrival)
    requires !a.raises && Keyed(a.m) && a.p1 == a.p2 == map[] && a.reply == Some(a.resp) && a.outcome == Executed
    requires Pruned(c, map[], cfg.idemMax, a.now)
    ensures CacheStep(cfg, c, map[CacheKey(a.m) := Entry(cfg, a)], a)
  {
    NothingToPrune<Cached>(map[], cfg.idemMax, a.now);
  }

  lemma AllExpired(c: Cache, max: nat, now: int)
    requires forall k :: k in c ==> c[k].exp < now
    ensures Pruned(c, map[], max, now)
  {
    assert Unexpired(c, now) == map[] && LiveKeys(c, now) == {};
  }

  lemma ExpiredCache(cfg: Config, a: Arrival, b: Arrival)
    requires !a.raises && !b.raises && Keyed(a.m) && b.m == a.m && a.p1 == a.p2 == b.p1 == b.p2 == map[]
    requires a.reply == Some(a.resp) && b.reply == Some(b.resp)
    requires a.now + cfg.idemTtl < b.now && a.outcome == Executed && b.outcome == Executed
    ensures CacheStep(cfg, map[], map[CacheKey(a.m) := Entry(cfg, a)], a)
    ensures CacheStep(cfg, map[CacheKey(a.m) := Entry(cfg, a)], map[CacheKey(a.m) := Entry(cfg, b)], b)
  {
    AllExpired(map[], cfg.idemMax, a.now);
    CachedAlone(cfg, map[], a);
    AllExpired(map[CacheKey(a.m) := Entry(cfg, a)], cfg.idemMax, b.now);
    CachedAlone(cfg, map[CacheKey(a.m) := Entry(cfg, a)], b);
  }

  // An empty Request-Id is no better than none for the cache, but good enough for
  // the nonce gate, so the message runs again at once, whatever the lifetimes.
  lemma EmptyRequestIdRunsTwice(cfg: Config) returns (gates: seq<N.Gate>, caches: seq<Cache>, arrivals: seq<Arrival>)
    requires Small(cfg) && cfg.nonce.ttl >= 0 && cfg.drift >= 0
    ensures Run(cfg, gates, caches, arrivals) && |arrivals| == 2 && arrivals[0].m == arrivals[1].m
    ensures arrivals[0].m.rid == Some("") && arrivals[0].auth && arrivals[1].auth
    ensures arrivals[0].outcome == Executed && arrivals[1].outcome == Executed
  {
    var m := Msg(Some("n"), Some(""), Some(0), "");
    arrivals := Twice(cfg, m, 0, false);
    var gate := OneNonce(cfg.nonce, "n", Some(""));
    gates, caches := [N.NewGate, gate, gate], [map[], map[], map[]];
    SameRequestPasses(cfg.nonce, "n", "", 0);
  }

  // A handler that raises an error runs again at once, since nothing was recorded,
  // even if responses are cached for long enough.
  lemma RaisedRunsAgain(cfg: Config) returns (gates: seq<N.Gate>, caches: seq<Cache>, arrivals: seq<Arrival>)
    requires Small(cfg) && cfg.nonce.ttl >= 0 && cfg.idemTtl >= cfg.drift >= 0
    ensures Run(cfg, gates, caches, arrivals) && |arrivals| == 2 && arrivals[0].m == arrivals[1].m
    ensures Keyed(arrivals[0].m) && arrivals[0].auth && arrivals[1].auth
    ensures arrivals[0].m.ts.Some? && LongEnough(cfg, arrivals[0]) && Room(cfg, arrivals, 0, 1)
    ensures arrivals[0].outcome == Raised && arrivals[1].outcome == Executed
  {
    var m := Msg(Some("n"), Some("r"), Some(0), "");
    arrivals := Twice(cfg, m, 0, true);
    var gate := OneNonce(cfg.nonce, "n", Some("r"));
    gates, caches := [N.NewGate, gate, gate], [map[], map[], map[CacheKey(m) := Entry(cfg, arrivals[1])]];
    SameRequestPasses(cfg.nonce, "n", "r", 0);
    NothingToPrune<Cached>(map[], cfg.idemMax, 0);
    assert Recorded(cfg, arrivals, 0) == [] && Recorded(cfg, arrivals, 1) == [];
  }
}
