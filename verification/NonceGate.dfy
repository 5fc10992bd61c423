// The nonce gate of the registry: a bounded memory of recent nonces, with an
// optional database tier behind it.
module NonceGate {
  import opened Wrappers
  import opened TtlStore

  type Rid = Option<string>
  type Store = map<string, Item<Rid>>

  datatype Config = Config(ttl: int, max: nat, required: bool, useDb: bool)

  // A new nonce, the same request again, no nonce where none is required, or refused.
  datatype Verdict = Fresh | Again | NoNonce | Rejected(error: string)

  const DB_DOWN := Rejected("nonce_sqlite_open_failed")

  // The memory, the database table, and whether the database has been opened.
  datatype Gate = Gate(store: Store, db: Store, loaded: bool)

  const NewGate := Gate(map[], map[], false)

  predicate Seen(s: Store, nonce: string, now: int) { nonce in s && s[nonce].exp >= now }

  // A nonce may come back with the request it was first used for.
  function Judge(rid: Rid, again: Rid): Verdict {
    if rid.Some? && rid == again then Again else Rejected("replay_nonce")
  }

  // What the gate answers, where p is the memory after the first pruning.
  function VerdictOf(cfg: Config, p: Store, db: Store, loaded: bool, nonce: Option<string>, rid: Rid, now: int,
                     opens: bool): Verdict {
    if nonce.None? then if cfg.required then Rejected("missing_nonce") else NoNonce
    else if Seen(p, nonce.value, now) then Judge(p[nonce.value].value, rid)
    else if cfg.useDb && !loaded && !opens then DB_DOWN
    else if cfg.useDb && Seen(db, nonce.value, now) then Judge(db[nonce.value].value, rid)
    else Fresh
  }

  // The record of a new nonce.
  function Addition(cfg: Config, nonce: Option<string>, rid: Rid, now: int, v: Verdict): Option<Put<Rid>> {
    if v.Fresh? && nonce.Some? then Some(Put(nonce.value, Item(rid, now + cfg.ttl))) else None
  }

  function TableAfter(db: Store, x: Option<Put<Rid>>, now: int): Store {
    if x.Some? then Unexpired(db[x.value.key := x.value.item], now) else db
  }

  predicate Opened(cfg: Config, p: Store, loaded: bool, nonce: Option<string>, now: int, opens: bool) {
    loaded || (cfg.useDb && opens && nonce.Some? && !Seen(p, nonce.value, now))
  }

  // A record goes in before another pruning.
  ghost predicate Kept(p: Store, t: Store, max: nat, now: int, x: Option<Put<Rid>>) {
    if x.Some? then Pruned(p[x.value.key := x.value.item], t, max, now) else t == p
  }

  // What happens after the first pruning, which left the memory p.
  ghost predicate Checked(cfg: Config, p: Store, db: Store, loaded: bool, t: Gate, nonce: Option<string>, rid: Rid,
                          now: int, opens: bool, v: Verdict) {
    var x := Addition(cfg, nonce, rid, now, v);
    v == VerdictOf(cfg, p, db, loaded, nonce, rid, now, opens) &&
    Kept(p, t.store, cfg.max, now, x) &&
    t.db == (if cfg.useDb then TableAfter(db, x, now) else db) &&
    t.loaded == Opened(cfg, p, loaded, nonce, now, opens)
  }

  ghost predicate StepVia(cfg: Config, g: Gate, p: Store, t: Gate, nonce: Option<string>, rid: Rid, now: int,
                          opens: bool, v: Verdict) {
    Pruned(g.store, p, cfg.max, now) && Checked(cfg, p, g.db, g.loaded, t, nonce, rid, now, opens, v)
  }

  ghost predicate NonceStep(cfg: Config, g: Gate, t: Gate, nonce: Option<string>, rid: Rid, now: int, opens: bool,
                            v: Verdict) {
    exists p :: StepVia(cfg, g, p, t, nonce, rid, now, opens, v)
  }

  lemma KnownChecked(cfg: Config, p: Store, db: Store, loaded: bool, nonce: Option<string>, rid: Rid, now: int,
                     opens: bool, v: Verdict)
    requires v == VerdictOf(cfg, p, db, loaded, nonce, rid, now, opens) && !v.Fresh?
    ensures Checked(cfg, p, db, loaded, Gate(p, db, Opened(cfg, p, loaded, nonce, now, opens)), nonce, rid, now,
                    opens, v)
  {
  }

  lemma FreshChecked(cfg: Config, p: Store, db: Store, loaded: bool, t: Gate, n: string, rid: Rid, now: int,
                     opens: bool)
    requires VerdictOf(cfg, p, db, loaded, Some(n), rid, now, opens) == Fresh
    requires t.loaded == Opened(cfg, p, loaded, Some(n), now, opens)
    requires var x := Some(Put(n, Item(rid, now + cfg.ttl)));
      Kept(p, t.store, cfg.max, now, x) && t.db == if cfg.useDb then TableAfter(db, x, now) else db
    ensures Checked(cfg, p, db, loaded, t, Some(n), rid, now, opens, Fresh)
  {
  }

  lemma CheckedIsStep(cfg: Config, g: Gate, p: Store, t: Gate, nonce: Option<string>, rid: Rid, now: int, opens: bool,
                      v: Verdict)
    requires Pruned(g.store, p, cfg.max, now) && Checked(cfg, p, g.db, g.loaded, t, nonce, rid, now, opens, v)
    ensures NonceStep(cfg, g, t, nonce, rid, now, opens, v)
  {
    assert StepVia(cfg, g, p, t, nonce, rid, now, opens, v);
  }

  class Auth {
    const cfg: Config
    var nonceStore: Store
    var nonceDb: Store
    var nonceDbLoaded: bool

    ghost function State(): Gate reads this { Gate(nonceStore, nonceDb, nonceDbLoaded) }

    constructor (cfg: Config)
      ensures this.cfg == cfg && State() == NewGate
    {
      this.cfg := cfg;
      nonceStore, nonceDb, nonceDbLoaded := map[], map[], false;
    }

    method FindOldest() returns (oldest: string)
      requires nonceStore != map[]
      ensures Oldest(nonceStore, oldest)
    {
      var todo := nonceStore.Keys;
      oldest :| oldest in todo;
      todo := todo - {oldest};
      while todo != {}
        invariant todo <= nonceStore.Keys && oldest in nonceStore
        invariant forall k :: k in nonceStore && k !in todo ==> nonceStore[oldest].exp <= nonceStore[k].exp
        decreases todo
      {
        var k :| k in todo;
        if nonceStore[k].exp < nonceStore[oldest].exp { oldest := k; }
        todo := todo - {k};
      }
    }

    method PruneNonces(now: int)
      modifies this`nonceStore
      ensures Pruned(old(nonceStore), nonceStore, cfg.max, now)
    {
      var count := 0;
      var todo := nonceStore.Keys;
      ghost var was := nonceStore;
      while todo != {}
        invariant todo <= was.Keys
        invariant nonceStore == map k | k in was && (k in todo || was[k].exp >= now) :: was[k]
        invariant count + |todo| == |nonceStore.Keys|
        decreases todo
      {
        ghost var s := nonceStore;
        var k :| k in todo;
        todo := todo - {k};
        if nonceStore[k].exp < now {
          nonceStore := nonceStore - {k};
          assert nonceStore.Keys == s.Keys - {k};
        } else {
          count := count + 1;
        }
      }
      assert nonceStore == Unexpired(was, now) && nonceStore.Keys == LiveKeys(was, now);
      if count > cfg.max {
        var oldest := FindOldest();
        nonceStore := nonceStore - {oldest};
      }
    }

    method LoadNonceDb(opens: bool) returns (ok: bool)
      modifies this`nonceDbLoaded
      ensures ok == (!cfg.useDb || old(nonceDbLoaded) || opens)
      ensures nonceDbLoaded == (old(nonceDbLoaded) || (cfg.useDb && opens))
    {
      if nonceDbLoaded || !cfg.useDb { return true; }
      if !opens { return false; }
      nonceDbLoaded := true;
      ok := true;
    }

    method Remember(n: string, rid: Rid, now: int)
      requires cfg.useDb ==> nonceDbLoaded
      modifies this`nonceStore, this`nonceDb
      ensures var x := Some(Put(n, Item(rid, now + cfg.ttl)));
        Kept(old(nonceStore), nonceStore, cfg.max, now, x) &&
        nonceDb == if cfg.useDb then TableAfter(old(nonceDb), x, now) else old(nonceDb)
    {
      var record := Item(rid, now + cfg.ttl);
      nonceStore := nonceStore[n := record];
      if cfg.useDb && nonceDbLoaded {
        nonceDb := nonceDb[n := record];
        nonceDb := map k | k in nonceDb && nonceDb[k].exp >= now :: nonceDb[k];
      }
      PruneNonces(now);
    }

    method CheckNonce(n: string, rid: Rid, now: int, opens: bool) returns (v: Verdict)
      modifies this
      ensures Checked(cfg, old(nonceStore), old(nonceDb), old(nonceDbLoaded), State(), Some(n), rid, now, opens, v)
    {
      ghost var p, db, loaded := nonceStore, nonceDb, nonceDbLoaded;
      v := Fresh;
      if n in nonceStore && nonceStore[n].exp >= now {
        v := Judge(nonceStore[n].value, rid);
      } else if cfg.useDb {
        var ok := LoadNonceDb(opens);
        if !ok {
          v := DB_DOWN;
        } else if n in nonceDb && nonceDb[n].exp >= now {
          v := Judge(nonceDb[n].value, rid);
        }
      }
      if v.Fresh? {
        Remember(n, rid, now);
        FreshChecked(cfg, p, db, loaded, State(), n, rid, now, opens);
      } else {
        KnownChecked(cfg, p, db, loaded, Some(n), rid, now, opens, v);
      }
    }

    // `opens` says whether the database file can be opened at this call.
    method RequireNonce(nonce: Option<string>, rid: Rid, now: int, opens: bool) returns (v: Verdict)
      modifies this
      ensures NonceStep(cfg, old(State()), State(), nonce, rid, now, opens, v)
    {
      PruneNonces(now);
      ghost var p := nonceStore;
      if nonce.None? {
        v := if cfg.required then Rejected("missing_nonce") else NoNonce;
        KnownChecked(cfg, p, nonceDb, nonceDbLoaded, None, rid, now, opens, v);
      } else {
        v := CheckNonce(nonce.value, rid, now, opens);
      }
      CheckedIsStep(cfg, old(State()), p, State(), nonce, rid, now, opens, v);
    }
  }

  // ---------------------------------------------------------------- runs of the gate

  // One call of the gate (`mid` is what its first pruning left), a message that
  // does not get to the gate, or a restart of the process, which loses the memory.
  datatype Event =
    | Ask(nonce: Option<string>, rid: Rid, now: int, opens: bool, mid: Store, v: Verdict)
    | Idle(now: int)
    | Restart(now: int)

  ghost predicate EventStep(cfg: Config, g: Gate, t: Gate, e: Event) {
    match e
    case Ask(nonce, rid, now, opens, mid, v) => StepVia(cfg, g, mid, t, nonce, rid, now, opens, v)
    case Idle(now) => t == g
    case Restart(now) => t == Gate(map[], g.db, false)
  }

  ghost predicate StepAt(cfg: Config, gates: seq<Gate>, events: seq<Event>, i: nat)
    requires |gates| == |events| + 1 && i < |events|
  {
    EventStep(cfg, gates[i], gates[i + 1], events[i])
  }

  // The gates before, between and after the events of a run.
  ghost predicate Run(cfg: Config, gates: seq<Gate>, events: seq<Event>) {
    |gates| == |events| + 1 && gates[0] == NewGate &&
    (forall i: nat {:trigger StepAt(cfg, gates, events, i)} :: i < |events| ==> StepAt(cfg, gates, events, i)) &&
    forall i, j :: 0 <= i < j < |events| ==> events[i].now <= events[j].now
  }

  predicate NoRestart(events: seq<Event>) { forall i :: 0 <= i < |events| ==> !events[i].Restart? }

  predicate IsRecorded(e: Event) { e.Ask? && e.v.Fresh? && e.nonce.Some? }

  function Insertion(cfg: Config, e: Event): Put<Rid>
    requires IsRecorded(e)
  {
    Put(e.nonce.value, Item(e.rid, e.now + cfg.ttl))
  }

  function Recording(cfg: Config, e: Event): Option<Put<Rid>> {
    if e.Ask? then Addition(cfg, e.nonce, e.rid, e.now, e.v) else None
  }

  function Extended(log: seq<Put<Rid>>, x: Option<Put<Rid>>): seq<Put<Rid>> {
    if x.Some? then log + [x.value] else log
  }

  predicate NewTo(p: Store, x: Option<Put<Rid>>) { x.Some? ==> x.value.key !in p }

  lemma UnseenIsNew(s: Store, p: Store, max: nat, now: int, n: string)
    requires Pruned(s, p, max, now) && !Seen(p, n, now)
    ensures n !in p
  {
    if n in p { PrunedIsLive(s, p, max, now, n); }
  }

  // What a call does to the memory: it prunes and keeps the new record.
  ghost predicate MemoryStep(s: Store, p: Store, t: Store, max: nat, now: int, x: Option<Put<Rid>>) {
    Pruned(s, p, max, now) && Kept(p, t, max, now, x)
  }

  lemma AskMemory(cfg: Config, g: Gate, t: Gate, e: Event)
    requires e.Ask? && EventStep(cfg, g, t, e)
    ensures MemoryStep(g.store, e.mid, t.store, cfg.max, e.now, Recording(cfg, e)) && NewTo(e.mid, Recording(cfg, e))
  {
    if IsRecorded(e) { UnseenIsNew(g.store, e.mid, cfg.max, e.now, e.nonce.value); }
  }

  lemma AddedSize(p: Store, t: Store, n: string, item: Item<Rid>, max: nat, now: int)
    requires |p.Keys| <= max && n !in p && Pruned(p[n := item], t, max, now)
    ensures |t.Keys| <= max
  {
    var q := p[n := item];
    assert |q.Keys| <= max + 1 by { assert q.Keys == p.Keys + {n}; }
    PrunedSize(q, t, max, now);
  }

  lemma MemorySize(s: Store, p: Store, t: Store, max: nat, now: int, x: Option<Put<Rid>>)
    requires MemoryStep(s, p, t, max, now, x) && NewTo(p, x) && |s.Keys| <= max
    ensures |t.Keys| <= max
  {
    PrunedSize(s, p, max, now);
    if x.Some? { AddedSize(p, t, x.value.key, x.value.item, max, now); }
  }

  lemma StepSize(cfg: Config, g: Gate, t: Gate, e: Event)
    requires EventStep(cfg, g, t, e) && |g.store.Keys| <= cfg.max
    ensures |t.store.Keys| <= cfg.max
  {
    if e.Ask? {
      AskMemory(cfg, g, t, e);
      MemorySize(g.store, e.mid, t.store, cfg.max, e.now, Recording(cfg, e));
    }
  }

  // Main result: between calls the memory never holds more than its maximum.
  lemma {:induction false} MemoryIsBounded(cfg: Config, gates: seq<Gate>, events: seq<Event>, n: nat)
    requires Run(cfg, gates, events) && n <= |events|
    ensures |gates[n].store.Keys| <= cfg.max
  {
    if n > 0 {
      assert StepAt(cfg, gates, events, n - 1);
      MemoryIsBounded(cfg, gates, events, n - 1);
      StepSize(cfg, gates[n - 1], gates[n], events[n - 1]);
    }
  }

  lemma {:induction false} RecordKeepsFaithful(max: nat, now: int, p: Store, t: Store, log: seq<Put<Rid>>,
      x: Put<Rid>)
    requires Faithful(max, now, p, log) && x.key !in p && Pruned(p[x.key := x.item], t, max, now)
    ensures Faithful(max, now, t, log + [x])
  {
    PutKeepsFaithful(max, now, p, log, x);
    PruneKeepsFaithful(max, now, p[x.key := x.item], t, log + [x]);
  }

  lemma {:induction false} MemoryKeepsFaithful(s: Store, p: Store, t: Store, max: nat, now: int, x: Option<Put<Rid>>,
      log: seq<Put<Rid>>)
    requires MemoryStep(s, p, t, max, now, x) && NewTo(p, x) && Faithful(max, now, s, log)
    ensures Faithful(max, now, t, Extended(log, x))
  {
    PruneKeepsFaithful(max, now, s, p, log);
    if x.Some? { RecordKeepsFaithful(max, now, p, t, log, x.value); }
  }

  // The new nonces among the first n events.
  function Before(cfg: Config, events: seq<Event>, n: nat): seq<Put<Rid>>
    requires n <= |events|
  {
    if n == 0 then [] else Extended(Before(cfg, events, n - 1), Recording(cfg, events[n - 1]))
  }

  lemma {:induction false} RunIsFaithful(cfg: Config, gates: seq<Gate>, events: seq<Event>, n: nat, now: int)
    requires Run(cfg, gates, events) && NoRestart(events) && n <= |events| && (n > 0 ==> events[n - 1].now <= now)
    ensures Faithful(cfg.max, now, gates[n].store, Before(cfg, events, n))
  {
    if n > 0 {
      assert StepAt(cfg, gates, events, n - 1);
      RunIsFaithful(cfg, gates, events, n - 1, events[n - 1].now);
      if events[n - 1].Ask? {
        var e := events[n - 1];
        AskMemory(cfg, gates[n - 1], gates[n], e);
        MemoryKeepsFaithful(gates[n - 1].store, e.mid, gates[n].store, cfg.max, e.now, Recording(cfg, e),
                            Before(cfg, events, n - 1));
      }
    }
  }

  lemma {:induction false} InsertedAt(cfg: Config, events: seq<Event>, i: nat, n: nat)
    requires i < n <= |events| && IsRecorded(events[i])
    ensures Insertion(cfg, events[i]) in Before(cfg, events, n)
  {
    if i < n - 1 { InsertedAt(cfg, events, i, n - 1); }
  }

  lemma {:induction false} StepVerdict(cfg: Config, g: Gate, t: Gate, e: Event, log: seq<Put<Rid>>, x: Put<Rid>)
    requires e.Ask? && EventStep(cfg, g, t, e) && e.nonce == Some(x.key)
    requires Faithful(cfg.max, e.now, g.store, log) && x in log && x.item.exp >= e.now
    requires !Crowded(cfg.max, log, x.item.exp)
    ensures e.v == Judge(x.item.value, e.rid)
  {
    PruningKeeps(g.store, e.mid, cfg.max, e.now, log, x.key);
  }

  // Main result: through its whole lifetime an accepted nonce is refused to any
  // other request and given back to its own, unless at least `max` other nonces
  // were accepted in the same second or later.
  lemma {:induction false} NonceIsRemembered(cfg: Config, gates: seq<Gate>, events: seq<Event>, i: nat, j: nat)
    requires Run(cfg, gates, events) && NoRestart(events) && i < j < |events| && IsRecorded(events[i])
    requires events[j].Ask? && events[j].nonce == events[i].nonce && events[j].now <= events[i].now + cfg.ttl
    requires !Crowded(cfg.max, Before(cfg, events, j), events[i].now + cfg.ttl)
    ensures events[j].v == Judge(events[i].rid, events[j].rid)
  {
    RunIsFaithful(cfg, gates, events, j, events[j].now);
    InsertedAt(cfg, events, i, j);
    assert StepAt(cfg, gates, events, j);
    StepVerdict(cfg, gates[j], gates[j + 1], events[j], Before(cfg, events, j), Insertion(cfg, events[i]));
  }

  function Holding(n: string, rid: Rid): Store { map[n := Item(rid, 300)] }

  function Newcomer(n: string, rid: Rid, mid: Store): Event { Ask(Some(n), rid, 0, true, mid, Fresh) }

  lemma Joins(cfg: Config, s: Store, t: Store, n: string, rid: Rid)
    requires !cfg.useDb && cfg.ttl == 300 && Pruned(s, s, cfg.max, 0) && n !in s
    requires Pruned(s[n := Item(rid, 300)], t, cfg.max, 0)
    ensures EventStep(cfg, Gate(s, map[], false), Gate(t, map[], false), Newcomer(n, rid, s))
  {
    FreshChecked(cfg, s, map[], false, Gate(t, map[], false), n, rid, 0, true);
  }

  lemma FirstNonce(cfg: Config, n: string, rid: Rid)
    requires cfg.max == 1 && !cfg.useDb && cfg.ttl == 300
    ensures EventStep(cfg, NewGate, Gate(Holding(n, rid), map[], false), Newcomer(n, rid, map[]))
  {
    NothingToPrune<Rid>(map[], cfg.max, 0);
    NothingToPrune(Holding(n, rid), cfg.max, 0);
    Joins(cfg, map[], Holding(n, rid), n, rid);
  }

  // In a memory of size one the newcomer stays and the nonce it held, no younger, goes.
  lemma Evicts(m: string, was: Rid, n: string, rid: Rid)
    requires m != n
    ensures Pruned(Holding(m, was)[n := Item(rid, 300)], Holding(n, rid), 1, 0)
  {
    var both := Holding(m, was)[n := Item(rid, 300)];
    assert both.Keys == {m, n} && Holding(n, rid) == both - {m};
    OneTooMany(both, m, 1, 0);
  }

  lemma Displaces(cfg: Config, m: string, was: Rid, n: string, rid: Rid)
    requires cfg.max == 1 && !cfg.useDb && cfg.ttl == 300 && m != n
    ensures EventStep(cfg, Gate(Holding(m, was), map[], false), Gate(Holding(n, rid), map[], false),
                      Newcomer(n, rid, Holding(m, was)))
  {
    NothingToPrune(Holding(m, was), cfg.max, 0);
    Evicts(m, was, n, rid);
    Joins(cfg, Holding(m, was), Holding(n, rid), n, rid);
  }

  // The crowd is needed: with room for one, one other nonce in the same second
  // lets the first nonce in again for another request.
  lemma CrowdAdmitsReplay() returns (cfg: Config, gates: seq<Gate>, events: seq<Event>)
    ensures Run(cfg, gates, events) && |events| == 3 && !cfg.useDb && cfg.ttl == 300 && cfg.max == 1
    ensures forall i :: 0 <= i < 3 ==> events[i].Ask? && events[i].now == 0 && events[i].v == Fresh
    ensures events[2].nonce == events[0].nonce && events[2].rid != events[0].rid
    ensures Crowded(cfg.max, Before(cfg, events, 2), 300)
  {
    cfg, gates, events := ROOM_FOR_ONE, CrowdGates(), CrowdEvents();
    forall i: nat | i < 3 ensures StepAt(cfg, gates, events, i) {
      CrowdStep(i);
    }
    TwoAreACrowd(cfg, events);
  }

  const ROOM_FOR_ONE := Config(300, 1, true, false)

  function CrowdEvents(): seq<Event> {
    var a, b := Some("1"), Some("2");
    [Newcomer("a", a, map[]), Newcomer("b", a, Holding("a", a)), Newcomer("a", b, Holding("b", a))]
  }

  function CrowdGates(): seq<Gate> {
    var a, b := Some("1"), Some("2");
    [NewGate, Gate(Holding("a", a), map[], false), Gate(Holding("b", a), map[], false),
     Gate(Holding("a", b), map[], false)]
  }

  lemma CrowdStep(i: nat)
    requires i < 3
    ensures StepAt(ROOM_FOR_ONE, CrowdGates(), CrowdEvents(), i)
  {
    if i == 0 {
      FirstNonce(ROOM_FOR_ONE, "a", Some("1"));
    } else if i == 1 {
      Displaces(ROOM_FOR_ONE, "a", Some("1"), "b", Some("1"));
    } else {
      Displaces(ROOM_FOR_ONE, "b", Some("1"), "a", Some("2"));
    }
  }

  lemma {:induction false} TwoAreACrowd(cfg: Config, events: seq<Event>)
    requires |events| >= 2 && IsRecorded(events[0]) && IsRecorded(events[1])
    requires events[0].now >= 0 && events[1].now >= 0
    ensures Crowded(1, Before(cfg, events, 2), cfg.ttl)
  {
    var log := Before(cfg, events, 2);
    assert Before(cfg, events, 1) == [Insertion(cfg, events[0])];
    assert log[..1] == [Insertion(cfg, events[0])] && log[..1][..0] == [];
  }

  // ---------------------------------------------------------------- with the database

  // An unbounded map of nonces with a lifetime, and how it would decide.
  function IdealVerdict(cfg: Config, m: Store, nonce: Option<string>, rid: Rid, now: int): Verdict {
    if nonce.None? then if cfg.required then Rejected("missing_nonce") else NoNonce
    else if Seen(m, nonce.value, now) then Judge(m[nonce.value].value, rid) else Fresh
  }

  function IdealNext(cfg: Config, m: Store, e: Event): Store {
    TableAfter(m, Recording(cfg, e), e.now)
  }

  // The map after the first n events.
  function Ideal(cfg: Config, events: seq<Event>, n: nat): Store
    requires n <= |events|
  {
    if n == 0 then map[] else IdealNext(cfg, Ideal(cfg, events, n - 1), events[n - 1])
  }

  // What the memory still knows, the table knows as well.
  ghost predicate Within(s: Store, db: Store, now: int) { forall n :: Seen(s, n, now) ==> n in db && db[n] == s[n] }

  lemma PruneStaysWithin(s: Store, p: Store, db: Store, max: nat, now: int)
    requires Within(s, db, now) && Pruned(s, p, max, now)
    ensures Within(p, db, now)
  {
    forall n | Seen(p, n, now) ensures n in db && db[n] == p[n] {
      PrunedIsLive(s, p, max, now, n);
      assert Seen(s, n, now);
    }
  }

  lemma RecordStaysWithin(s: Store, t: Store, db: Store, n: string, item: Item<Rid>, max: nat, now: int)
    requires Within(s, db, now) && Pruned(s[n := item], t, max, now)
    ensures Within(t, Unexpired(db[n := item], now), now)
  {
    var u := s[n := item];
    assert forall k :: Seen(u, k, now) ==> k == n || Seen(s, k, now);
    PruneStaysWithin(u, t, Unexpired(db[n := item], now), max, now);
  }

  lemma MemoryStaysWithin(s: Store, p: Store, t: Store, db: Store, max: nat, now: int, x: Option<Put<Rid>>)
    requires Within(s, db, now) && MemoryStep(s, p, t, max, now, x)
    ensures Within(p, db, now) && Within(t, TableAfter(db, x, now), now)
  {
    PruneStaysWithin(s, p, db, max, now);
    if x.Some? { RecordStaysWithin(p, t, db, x.value.key, x.value.item, max, now); }
  }

  // With the database, what the memory still knows does not change the answer.
  lemma VerdictIsIdeal(cfg: Config, p: Store, db: Store, loaded: bool, nonce: Option<string>, rid: Rid, now: int,
                       opens: bool)
    requires cfg.useDb && Within(p, db, now)
    ensures var v := VerdictOf(cfg, p, db, loaded, nonce, rid, now, opens);
      v == DB_DOWN || v == IdealVerdict(cfg, db, nonce, rid, now)
  {
    if nonce.Some? && Seen(p, nonce.value, now) { assert db[nonce.value] == p[nonce.value]; }
  }

  lemma EventRefines(cfg: Config, g: Gate, t: Gate, e: Event)
    requires cfg.useDb && Within(g.store, g.db, e.now) && EventStep(cfg, g, t, e)
    ensures t.db == IdealNext(cfg, g.db, e) && Within(t.store, t.db, e.now)
    ensures e.Ask? ==> e.v == DB_DOWN || e.v == IdealVerdict(cfg, g.db, e.nonce, e.rid, e.now)
  {
    if e.Ask? {
      MemoryStaysWithin(g.store, e.mid, t.store, g.db, cfg.max, e.now, Recording(cfg, e));
      VerdictIsIdeal(cfg, e.mid, g.db, g.loaded, e.nonce, e.rid, e.now, e.opens);
    }
  }

  lemma {:induction false} RunRefines(cfg: Config, gates: seq<Gate>, events: seq<Event>, n: nat, now: int)
    requires cfg.useDb && Run(cfg, gates, events) && n <= |events| && (n > 0 ==> events[n - 1].now <= now)
    ensures gates[n].db == Ideal(cfg, events, n) && Within(gates[n].store, gates[n].db, now)
  {
    if n > 0 {
      assert StepAt(cfg, gates, events, n - 1);
      RunRefines(cfg, gates, events, n - 1, events[n - 1].now);
      EventRefines(cfg, gates[n - 1], gates[n], events[n - 1]);
      WithinLater(gates[n].store, gates[n].db, events[n - 1].now, now);
    }
  }

  lemma WithinLater(s: Store, db: Store, now: int, later: int)
    requires Within(s, db, now) && now <= later
    ensures Within(s, db, later)
  {
    assert forall k :: Seen(s, k, later) ==> Seen(s, k, now);
  }

  // Main result: with the database, memory and table together decide every call
  // as an unbounded map would, across restarts, except that a call which cannot
  // open the database is refused.
  lemma {:induction false} DatabaseRefinesUnboundedMap(cfg: Config, gates: seq<Gate>, events: seq<Event>, j: nat)
    requires cfg.useDb && Run(cfg, gates, events) && j < |events| && events[j].Ask?
    ensures var e := events[j];
      e.v == DB_DOWN || e.v == IdealVerdict(cfg, Ideal(cfg, events, j), e.nonce, e.rid, e.now)
  {
    RunRefines(cfg, gates, events, j, events[j].now);
    assert StepAt(cfg, gates, events, j);
    EventRefines(cfg, gates[j], gates[j + 1], events[j]);
  }

  lemma IdealKeeps(cfg: Config, m: Store, e: Event, n: string)
    requires Seen(m, n, e.now) && (e.Ask? ==> e.v == DB_DOWN || e.v == IdealVerdict(cfg, m, e.nonce, e.rid, e.now))
    ensures n in IdealNext(cfg, m, e) && IdealNext(cfg, m, e)[n] == m[n]
  {
  }

  lemma {:induction false} IdealRemembers(cfg: Config, gates: seq<Gate>, events: seq<Event>, i: nat, j: nat)
    requires cfg.useDb && Run(cfg, gates, events) && i < j <= |events| && IsRecorded(events[i])
    requires events[j - 1].now <= events[i].now + cfg.ttl
    ensures var x := Insertion(cfg, events[i]);
      x.key in Ideal(cfg, events, j) && Ideal(cfg, events, j)[x.key] == x.item
    decreases j
  {
    if i < j - 1 {
      IdealRemembers(cfg, gates, events, i, j - 1);
      if events[j - 1].Ask? { DatabaseRefinesUnboundedMap(cfg, gates, events, j - 1); }
      IdealKeeps(cfg, Ideal(cfg, events, j - 1), events[j - 1], events[i].nonce.value);
    }
  }

  // So refusal is unconditional: no crowd and no restart lets another request in.
  lemma {:induction false} DatabaseNeverForgets(cfg: Config, gates: seq<Gate>, events: seq<Event>, i: nat, j: nat)
    requires cfg.useDb && Run(cfg, gates, events) && i < j < |events| && IsRecorded(events[i])
    requires events[j].Ask? && events[j].nonce == events[i].nonce && events[j].now <= events[i].now + cfg.ttl
    ensures events[j].v == DB_DOWN || events[j].v == Judge(events[i].rid, events[j].rid)
  {
    DatabaseRefinesUnboundedMap(cfg, gates, events, j);
    IdealRemembers(cfg, gates, events, i, j);
  }

  // ---------------------------------------------------------------- who gets in

  lemma {:induction false} PruneKeepsLogged(s: Store, t: Store, max: nat, now: int, log: seq<Put<Rid>>)
    requires Logged(s, log) && Pruned(s, t, max, now)
    ensures Logged(t, log)
  {
    forall k | k in t ensures Put(k, t[k]) in log { PrunedIsLive(s, t, max, now, k); }
  }

  lemma {:induction false} MemoryKeepsLogged(s: Store, p: Store, t: Store, max: nat, now: int, x: Option<Put<Rid>>,
      log: seq<Put<Rid>>)
    requires MemoryStep(s, p, t, max, now, x) && Logged(s, log)
    ensures Logged(p, log) && Logged(t, Extended(log, x))
  {
    PruneKeepsLogged(s, p, max, now, log);
    if x.Some? {
      var q := p[x.value.key := x.value.item];
      assert Logged(q, log + [x.value]) by {
        forall k | k in q ensures Put(k, q[k]) in log + [x.value] {
          if k == x.value.key { assert (log + [x.value])[|log|] == Put(k, q[k]); }
        }
      }
      PruneKeepsLogged(q, t, max, now, log + [x.value]);
    }
  }

  // What the memory holds was recorded, restarts or not.
  lemma {:induction false} RunIsLogged(cfg: Config, gates: seq<Gate>, events: seq<Event>, n: nat)
    requires Run(cfg, gates, events) && n <= |events|
    ensures Logged(gates[n].store, Before(cfg, events, n))
  {
    if n > 0 {
      assert StepAt(cfg, gates, events, n - 1);
      RunIsLogged(cfg, gates, events, n - 1);
      var e := events[n - 1];
      if e.Ask? {
        AskMemory(cfg, gates[n - 1], gates[n], e);
        MemoryKeepsLogged(gates[n - 1].store, e.mid, gates[n].store, cfg.max, e.now, Recording(cfg, e),
                          Before(cfg, events, n - 1));
      }
    }
  }

  lemma {:induction false} RecordedFrom(cfg: Config, events: seq<Event>, n: nat, x: Put<Rid>) returns (i: nat)
    requires n <= |events| && x in Before(cfg, events, n)
    ensures i < n && IsRecorded(events[i]) && x == Insertion(cfg, events[i])
  {
    if Recording(cfg, events[n - 1]) == Some(x) {
      i := n - 1;
    } else {
      i := RecordedFrom(cfg, events, n - 1, x);
    }
  }

  lemma {:induction false} IdealFrom(cfg: Config, events: seq<Event>, n: nat, k: string) returns (i: nat)
    requires n <= |events| && k in Ideal(cfg, events, n)
    ensures i < n && IsRecorded(events[i]) && Put(k, Ideal(cfg, events, n)[k]) == Insertion(cfg, events[i])
  {
    if Recording(cfg, events[n - 1]).Some? && Recording(cfg, events[n - 1]).value.key == k {
      i := n - 1;
    } else {
      i := IdealFrom(cfg, events, n - 1, k);
    }
  }

  // No event before the nth used this nonce within its lifetime.
  predicate Unused(cfg: Config, events: seq<Event>, n: nat, nonce: string, now: int)
    requires n <= |events|
  {
    forall i :: 0 <= i < n && IsRecorded(events[i]) && events[i].nonce == Some(nonce) ==> events[i].now + cfg.ttl < now
  }

  lemma {:induction false} UnusedIsUnseen(cfg: Config, gates: seq<Gate>, events: seq<Event>, j: nat, p: Store,
      nonce: string, now: int)
    requires Run(cfg, gates, events) && j <= |events| && Unused(cfg, events, j, nonce, now)
    requires Logged(p, Before(cfg, events, j))
    ensures !Seen(p, nonce, now) && !Seen(Ideal(cfg, events, j), nonce, now)
  {
    if Seen(p, nonce, now) { var i := RecordedFrom(cfg, events, j, Put(nonce, p[nonce])); }
    if nonce in Ideal(cfg, events, j) { var i := IdealFrom(cfg, events, j, nonce); }
  }

  lemma {:induction false} AskOutcome(cfg: Config, gates: seq<Gate>, events: seq<Event>, j: nat)
    requires Run(cfg, gates, events) && j < |events| && events[j].Ask?
    ensures var e := events[j];
      e.v == VerdictOf(cfg, e.mid, gates[j].db, gates[j].loaded, e.nonce, e.rid, e.now, e.opens) &&
      Pruned(gates[j].store, e.mid, cfg.max, e.now)
  {
    assert StepAt(cfg, gates, events, j);
  }

  // Main result: in every run a nonce that nobody used within its lifetime is let
  // in as new, unless the database is wanted and its file cannot be opened.
  lemma {:induction false} UnusedNonceIsFresh(cfg: Config, gates: seq<Gate>, events: seq<Event>, j: nat)
    requires Run(cfg, gates, events) && j < |events| && events[j].Ask? && events[j].nonce.Some?
    requires Unused(cfg, events, j, events[j].nonce.value, events[j].now)
    ensures var e := events[j];
      e.v == Fresh || (cfg.useDb && !e.opens && e.v == DB_DOWN)
  {
    var e := events[j];
    AskOutcome(cfg, gates, events, j);
    RunIsLogged(cfg, gates, events, j);
    PruneKeepsLogged(gates[j].store, e.mid, cfg.max, e.now, Before(cfg, events, j));
    UnusedIsUnseen(cfg, gates, events, j, e.mid, e.nonce.value, e.now);
    if cfg.useDb { RunRefines(cfg, gates, events, j, e.now); }
  }

  // Without a nonce a call is refused exactly if one is required, whatever came before.
  lemma {:induction false} MissingNonce(cfg: Config, gates: seq<Gate>, events: seq<Event>, j: nat)
    requires Run(cfg, gates, events) && j < |events| && events[j].Ask? && events[j].nonce == None
    ensures if cfg.required then events[j].v == Rejected("missing_nonce") else events[j].v == NoNonce
  {
    AskOutcome(cfg, gates, events, j);
  }
}
