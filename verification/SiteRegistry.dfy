// Registering sites, setting their runtime pointers, and the repair on load.
module SiteRegistry {
  import opened Wrappers
  import opened RuntimePointers
  import I = Integrity

  // A site's configuration; `acceptable` is what schema and size checks say of it.
  datatype Config = Config(text: string, version: Option<string>, acceptable: bool)

  // `legacy` is the pointer that older states kept inside the site.
  datatype Site = Site(config: string, createdAt: string, legacy: Raw)

  datatype State = State(sites: map<string, Site>, runtimes: map<string, Raw>, versions: map<string, string>)

  // An answer shows the site's pointer where there is one.
  datatype Reply =
    | Err(code: string, detail: string)
    | AlreadyRegistered(shown: Option<Pointer>)
    | Registered(shown: Option<Pointer>)
    | RuntimeSet(runtime: Pointer)

  const EPOCH := "1970-01-01T00:00:00Z"
  const NO_CONFIG := Config("{}", None, true)

  function SiteIdError(id: Option<string>): Option<string> {
    if id.None? then Some("Site-Id is required")
    else if id.value == "" then Some("invalid_format:Site-Id")
    else if |id.value| > 128 then Some("too_long:Site-Id")
    else None
  }

  function Detail(r: Result): string {
    match r
    case Ok(p) => ""
    case InvalidType => "invalid_type:Runtime"
    case UnsupportedField => "unsupported_field:Runtime"
    case MissingProcess => "missing_field:Runtime.processId"
    case InvalidField(f) => "invalid_format:Runtime"
  }

  // A pointer merged into what a site has.
  function Upserted(runtimes: map<string, Raw>, id: string, p: Pointer, now: string): map<string, Raw> {
    var was := if id in runtimes && runtimes[id].Table? then runtimes[id].t else map[];
    runtimes[id := Table((was + AsTable(p).t)[Key(UpdatedAt, 0) := Str(now)])]
  }

  // runtime_for_site
  function RuntimeFor(runtimes: map<string, Raw>, id: string): Option<Pointer> {
    if id in runtimes then Snapshot(runtimes[id]) else None
  }

  lemma UpsertedIsShown(runtimes: map<string, Raw>, id: string, q: Pointer, now: string)
    requires Valid(q, false)
    ensures RuntimeFor(Upserted(runtimes, id, q, now), id).Some?
  {
    MergedIsShown(if id in runtimes && runtimes[id].Table? then runtimes[id].t else map[], q, now);
  }

  datatype RegisterMsg = RegisterMsg(id: Option<string>, config: Option<Config>, runtime: Option<Raw>,
      version: Option<string>)

  function Versioned(versions: map<string, string>, id: string, v: Option<string>): map<string, string> {
    if v.Some? then versions[id := v.value] else versions - {id}
  }

  function Register(s: State, m: RegisterMsg, now: string): (State, Reply) {
    var config := I.Or(m.config, NO_CONFIG);
    var runtime := if m.runtime.Some? then Normalize(m.runtime.value, false) else Ok(map[]);
    if SiteIdError(m.id).Some? then (s, Err("INVALID_INPUT", SiteIdError(m.id).value))
    else if !config.acceptable then (s, Err("INVALID_INPUT", "Config"))
    else if !runtime.Ok? then (s, Err("INVALID_INPUT", Detail(runtime)))
    else if m.id.value in s.sites then (s, AlreadyRegistered(RuntimeFor(s.runtimes, m.id.value)))
    else
      var id := m.id.value;
      var runtimes := if m.runtime.Some? then Upserted(s.runtimes, id, runtime.p, now) else s.runtimes;
      (State(s.sites[id := Site(config.text, now, NotATable)], runtimes,
             Versioned(s.versions, id, I.First(config.version, m.version))), Registered(RuntimeFor(runtimes, id)))
  }

  function SetRuntime(s: State, id: Option<string>, runtime: Option<Raw>, now: string): (State, Reply) {
    if id.None? || runtime.None? then (s, Err("INVALID_INPUT", "Missing required field"))
    else if SiteIdError(id).Some? then (s, Err("INVALID_INPUT", SiteIdError(id).value))
    else if id.value !in s.sites then (s, Err("NOT_FOUND", "Site not registered"))
    else
      var r := Normalize(runtime.value, false);
      if !r.Ok? then (s, Err("INVALID_INPUT", Detail(r)))
      else
        NormalizedIsValid(runtime.value, false);
        UpsertedIsShown(s.runtimes, id.value, r.p, now);
        var runtimes := Upserted(s.runtimes, id.value, r.p, now);
        (s.(runtimes := runtimes), RuntimeSet(RuntimeFor(runtimes, id.value).value))
  }

  // ---------------------------------------------------------------- repair on load

  function WithTime(p: Pointer, now: string): Pointer { if UpdatedAt in p then p else p[UpdatedAt := now] }

  function Repaired(raw: Raw, now: string): Raw
    requires Normalize(raw, true).Ok?
  {
    AsTable(WithTime(Normalize(raw, true).p, now))
  }

  function RepairedSite(site: Site): Site { if site.createdAt == "" then site.(createdAt := EPOCH) else site }

  // The pointer that the site itself still holds, if it is any good.
  function Legacy(site: Site, now: string): Option<Raw> {
    if site.legacy.Table? && Normalize(site.legacy, true).Ok? then Some(Repaired(site.legacy, now)) else None
  }

  function Adopted(s: State, now: string): map<string, Raw> {
    map id | id in s.sites && id !in s.runtimes && Legacy(s.sites[id], now).Some? :: Legacy(s.sites[id], now).value
  }

  function Kept(sites: map<string, Site>, runtimes: map<string, Raw>, now: string): map<string, Raw> {
    map id | id in runtimes && id in sites && Normalize(runtimes[id], true).Ok? :: Repaired(runtimes[id], now)
  }

  function Ensured(s: State, now: string): State {
    State(map id | id in s.sites :: RepairedSite(s.sites[id]),
          Kept(s.sites, s.runtimes + Adopted(s, now), now), s.versions)
  }

  // The first pass of the repair, with the sites in `todo` still to come.
  ghost predicate Halfway(was: State, sites: map<string, Site>, runtimes: map<string, Raw>, todo: set<string>,
                          now: string)
  {
    todo <= was.sites.Keys && sites.Keys == was.sites.Keys &&
    (forall id :: id in sites ==> sites[id] == if id in todo then was.sites[id] else RepairedSite(was.sites[id])) &&
    (forall id :: id in runtimes <==> id in was.runtimes || (id in Adopted(was, now) && id !in todo)) &&
    forall id :: id in runtimes ==>
      runtimes[id] == if id in was.runtimes then was.runtimes[id] else Adopted(was, now)[id]
  }

  function SiteDone(sites: map<string, Site>, id: string): map<string, Site>
    requires id in sites
  {
    sites[id := RepairedSite(sites[id])]
  }

  function RuntimeDone(sites: map<string, Site>, runtimes: map<string, Raw>, id: string, now: string): map<string, Raw>
    requires id in sites
  {
    if id !in runtimes && Legacy(sites[id], now).Some? then runtimes[id := Legacy(sites[id], now).value] else runtimes
  }

  lemma OneSiteMore(was: State, sites: map<string, Site>, runtimes: map<string, Raw>, todo: set<string>, id: string,
      now: string)
    requires Halfway(was, sites, runtimes, todo, now) && id in todo
    ensures Halfway(was, SiteDone(sites, id), RuntimeDone(sites, runtimes, id, now), todo - {id}, now)
  {
  }

  lemma AllSitesDone(was: State, sites: map<string, Site>, runtimes: map<string, Raw>, now: string)
    requires Halfway(was, sites, runtimes, {}, now)
    ensures sites == map id | id in was.sites :: RepairedSite(was.sites[id])
    ensures runtimes == was.runtimes + Adopted(was, now)
  {
  }

  class Sites {
    var sites: map<string, Site>
    var runtimes: map<string, Raw>
    var versions: map<string, string>

    ghost function Now(): State reads this { State(sites, runtimes, versions) }

    constructor ()
      ensures Now() == State(map[], map[], map[])
    {
      sites, runtimes, versions := map[], map[], map[];
    }

    // Normalises what it is given once more before it merges.  The answer is nil for
    // a pointer it refuses, with the error, and would be nil for a merged pointer
    // with nothing to show, which there never is.
    method UpsertSiteRuntime(id: string, raw: Raw, now: string) returns (upserted: Option<Pointer>, r: Result)
      modifies this`runtimes
      ensures r == Normalize(raw, false) && upserted.Some? == r.Ok?
      ensures runtimes == if r.Ok? then Upserted(old(runtimes), id, r.p, now) else old(runtimes)
      ensures upserted.Some? ==> upserted == RuntimeFor(runtimes, id)
    {
      r := Normalize(raw, false);
      if !r.Ok? { return None, r; }
      var existing := map[];
      if id in runtimes && runtimes[id].Table? { existing := runtimes[id].t; }
      var merged := existing + AsTable(r.p).t;
      runtimes := runtimes[id := Table(merged[Key(UpdatedAt, 0) := Str(now)])];
      NormalizedIsValid(raw, false);
      UpsertedIsShown(old(runtimes), id, r.p, now);
      upserted := Snapshot(runtimes[id]);
    }

    // The error return after the writes cannot be reached, so a registration is all or nothing.
    method RegisterSite(m: RegisterMsg, now: string) returns (reply: Reply)
      modifies this
      ensures (Now(), reply) == Register(old(Now()), m, now)
      ensures reply.Err? ==> Now() == old(Now())
    {
      var badId := SiteIdError(m.id);
      if badId.Some? { return Err("INVALID_INPUT", badId.value); }
      var id := m.id.value;
      var config := I.Or(m.config, NO_CONFIG);
      if !config.acceptable { return Err("INVALID_INPUT", "Config"); }
      var runtime := Ok(map[]);
      if m.runtime.Some? {
        runtime := Normalize(m.runtime.value, false);
        if !runtime.Ok? { return Err("INVALID_INPUT", Detail(runtime)); }
        NormalizeIsIdempotent(m.runtime.value, false);
      }
      if id in sites { return AlreadyRegistered(RuntimeFor(runtimes, id)); }
      sites := sites[id := Site(config.text, now, NotATable)];
      versions := Versioned(versions, id, I.First(config.version, m.version));
      if m.runtime.Some? {
        var upserted, _ := UpsertSiteRuntime(id, AsTable(runtime.p), now);
        if upserted.None? {
          assert false;
        }
      }
      reply := Registered(RuntimeFor(runtimes, id));
    }

    method SetSiteRuntime(id: Option<string>, raw: Option<Raw>, now: string) returns (reply: Reply)
      modifies this`runtimes
      ensures (Now(), reply) == SetRuntime(old(Now()), id, raw, now)
    {
      if id.None? || raw.None? { return Err("INVALID_INPUT", "Missing required field"); }
      var badId := SiteIdError(id);
      if badId.Some? { return Err("INVALID_INPUT", badId.value); }
      if id.value !in sites { return Err("NOT_FOUND", "Site not registered"); }
      var runtime := Normalize(raw.value, false);
      if !runtime.Ok? { return Err("INVALID_INPUT", Detail(runtime)); }
      NormalizeIsIdempotent(raw.value, false);
      var upserted, _ := UpsertSiteRuntime(id.value, AsTable(runtime.p), now);
      if upserted.None? {
        assert false;
      } else {
        reply := RuntimeSet(upserted.value);
      }
    }

    method RepairSites(now: string)
      modifies this
      ensures sites == map id | id in old(sites) :: RepairedSite(old(sites)[id])
      ensures runtimes == old(runtimes) + Adopted(old(Now()), now) && versions == old(versions)
    {
      ghost var was := Now();
      var todo := sites.Keys;
      while todo != {}
        invariant versions == was.versions && Halfway(was, sites, runtimes, todo, now)
        decreases todo
      {
        var id :| id in todo;
        ghost var before, kept := sites, runtimes;
        RepairSite(id, now);
        OneSiteMore(was, before, kept, todo, id, now);
        todo := todo - {id};
      }
      AllSitesDone(was, sites, runtimes, now);
    }

    method RepairSite(id: string, now: string)
      requires id in sites
      modifies this`sites, this`runtimes
      ensures sites == SiteDone(old(sites), id)
      ensures runtimes == RuntimeDone(old(sites), old(runtimes), id, now)
    {
      var site := sites[id];
      sites := sites[id := RepairedSite(site)];
      if id !in runtimes && site.legacy.Table? {
        var normalized := Normalize(site.legacy, true);
        if normalized.Ok? { runtimes := runtimes[id := AsTable(WithTime(normalized.p, now))]; }
      }
    }

    method RepairRuntimes(now: string)
      modifies this`runtimes
      ensures runtimes == Kept(sites, old(runtimes), now)
    {
      ghost var was := runtimes;
      var todo := runtimes.Keys;
      while todo != {}
        invariant todo <= was.Keys
        invariant forall id :: id in todo ==> id in runtimes && runtimes[id] == was[id]
        invariant forall id :: id in runtimes <==> id in todo || id in Kept(sites, was, now)
        invariant forall id :: id in runtimes && id !in todo ==> runtimes[id] == Kept(sites, was, now)[id]
        invariant forall id :: id in Kept(sites, was, now) ==> id in was
        decreases todo
      {
        var id :| id in todo;
        todo := todo - {id};
        var normalized := Normalize(runtimes[id], true);
        if id !in sites || !normalized.Ok? {
          runtimes := runtimes - {id};
        } else {
          runtimes := runtimes[id := AsTable(WithTime(normalized.p, now))];
        }
      }
    }

    method EnsureSiteRuntimeState(now: string)
      modifies this
      ensures Now() == Ensured(old(Now()), now)
    {
      ghost var was := Now();
      RepairSites(now);
      RepairRuntimes(now);
      SameSites(was.sites, sites, runtimes, was.runtimes + Adopted(was, now), now);
    }
  }

  lemma SameSites(a: map<string, Site>, b: map<string, Site>, kept: map<string, Raw>, runtimes: map<string, Raw>,
      now: string)
    requires a.Keys == b.Keys && kept == Kept(b, runtimes, now)
    ensures kept == Kept(a, runtimes, now)
  {
  }

  // ---------------------------------------------------------------- reachable states

  // A stored pointer: a valid one with its time, in canonical spelling.
  ghost predicate StoredOk(raw: Raw) { exists p :: Valid(p, true) && UpdatedAt in p && raw == AsTable(p) }

  ghost predicate StateOk(s: State) {
    (forall id :: id in s.sites ==> s.sites[id].legacy == NotATable && s.sites[id].createdAt != "") &&
    forall id :: id in s.runtimes ==> id in s.sites && StoredOk(s.runtimes[id])
  }

  lemma TableHas(p: Pointer, k: Key)
    ensures k in AsTable(p).t <==> k.Key? && k.spelling == 0 && k.field in p
    ensures k in AsTable(p).t ==> AsTable(p).t[k] == Str(p[k.field])
  {
  }

  lemma TablesMerge(p: Pointer, q: Pointer)
    ensures AsTable(p).t + AsTable(q).t == AsTable(p + q).t
  {
    var a, b := AsTable(p).t + AsTable(q).t, AsTable(p + q).t;
    forall k ensures (k in a <==> k in b) && (k in a ==> a[k] == b[k]) {
      TableHas(p, k);
      TableHas(q, k);
      TableHas(p + q, k);
    }
  }

  lemma TableTimed(p: Pointer, now: string)
    ensures AsTable(p).t[Key(UpdatedAt, 0) := Str(now)] == AsTable(p[UpdatedAt := now]).t
  {
    var a, b := AsTable(p).t[Key(UpdatedAt, 0) := Str(now)], AsTable(p[UpdatedAt := now]).t;
    forall k ensures (k in a <==> k in b) && (k in a ==> a[k] == b[k]) {
      TableHas(p, k);
      TableHas(p[UpdatedAt := now], k);
    }
  }

  lemma TimedIsValid(q: Pointer, now: string)
    requires Valid(q, false) && I.IsoUtc(now)
    ensures Valid(q[UpdatedAt := now], true)
  {
    var f :| f in q && (Process(f) || Template(f));
    assert f in q[UpdatedAt := now];
  }

  lemma MergedTable(p: Pointer, q: Pointer, now: string)
    requires Valid(p, true) && Valid(q, false) && I.IsoUtc(now)
    ensures StoredOk(Table((AsTable(p).t + AsTable(q).t)[Key(UpdatedAt, 0) := Str(now)]))
  {
    TablesMerge(p, q);
    TableTimed(p + q, now);
    MergeIsValid(p, q, now);
    assert AsTable(Merged(p, q, now)).t == (AsTable(p).t + AsTable(q).t)[Key(UpdatedAt, 0) := Str(now)];
  }

  lemma FirstTable(q: Pointer, now: string)
    requires Valid(q, false) && I.IsoUtc(now)
    ensures StoredOk(Table((map[] + AsTable(q).t)[Key(UpdatedAt, 0) := Str(now)]))
  {
    assert map[] + AsTable(q).t == AsTable(q).t;
    TableTimed(q, now);
    TimedIsValid(q, now);
    assert AsTable(q[UpdatedAt := now]).t == (map[] + AsTable(q).t)[Key(UpdatedAt, 0) := Str(now)];
  }

  // Merging a normalised pointer into a stored one gives a stored one again, with
  // every pointer that was there before.
  lemma UpsertedIsStored(runtimes: map<string, Raw>, id: string, q: Pointer, now: string)
    requires Valid(q, false) && I.IsoUtc(now) && (id in runtimes ==> StoredOk(runtimes[id]))
    ensures StoredOk(Upserted(runtimes, id, q, now)[id])
  {
    if id in runtimes {
      var p :| Valid(p, true) && UpdatedAt in p && runtimes[id] == AsTable(p);
      MergedTable(p, q, now);
    } else {
      FirstTable(q, now);
    }
  }

  lemma SiteAdded(s: State, id: string, site: Site, runtimes: map<string, Raw>, versions: map<string, string>)
    requires StateOk(s) && site.legacy == NotATable && site.createdAt != ""
    requires forall k :: k in runtimes ==>
      (k in s.runtimes && runtimes[k] == s.runtimes[k]) || (k == id && StoredOk(runtimes[k]))
    ensures StateOk(State(s.sites[id := site], runtimes, versions))
  {
  }

  lemma RegisterKeepsState(s: State, m: RegisterMsg, now: string)
    requires StateOk(s) && I.IsoUtc(now)
    ensures StateOk(Register(s, m, now).0)
  {
    if Register(s, m, now).1.Registered? {
      if m.runtime.Some? {
        NormalizedIsValid(m.runtime.value, false);
        UpsertedIsStored(s.runtimes, m.id.value, Normalize(m.runtime.value, false).p, now);
      }
      var t := Register(s, m, now).0;
      SiteAdded(s, m.id.value, t.sites[m.id.value], t.runtimes, t.versions);
    }
  }

  lemma SetRuntimeKeepsState(s: State, id: Option<string>, raw: Option<Raw>, now: string)
    requires StateOk(s) && I.IsoUtc(now)
    ensures StateOk(SetRuntime(s, id, raw, now).0)
  {
    if SetRuntime(s, id, raw, now).1.RuntimeSet? {
      NormalizedIsValid(raw.value, false);
      UpsertedIsStored(s.runtimes, id.value, Normalize(raw.value, false).p, now);
    }
  }

  datatype Op = DoRegister(m: RegisterMsg, now: string) | DoSet(id: Option<string>, raw: Option<Raw>, now: string)

  function After(ops: seq<Op>): State
    decreases |ops|
  {
    if ops == [] then State(map[], map[], map[])
    else
      match ops[|ops| - 1]
      case DoRegister(m, now) => Register(After(ops[..|ops| - 1]), m, now).0
      case DoSet(id, raw, now) => SetRuntime(After(ops[..|ops| - 1]), id, raw, now).0
  }

  lemma {:induction false} RunKeepsState(ops: seq<Op>)
    requires forall i :: 0 <= i < |ops| ==> I.IsoUtc(ops[i].now)
    ensures StateOk(After(ops))
    decreases |ops|
  {
    if ops != [] {
      var s := After(ops[..|ops| - 1]);
      RunKeepsState(ops[..|ops| - 1]);
      match ops[|ops| - 1]
      case DoRegister(m, now) => RegisterKeepsState(s, m, now);
      case DoSet(id, raw, now) => SetRuntimeKeepsState(s, id, raw, now);
    }
  }

  lemma StoredIsKept(raw: Raw, now: string)
    requires StoredOk(raw)
    ensures Normalize(raw, true).Ok? && Repaired(raw, now) == raw
  {
    var p :| Valid(p, true) && UpdatedAt in p && raw == AsTable(p);
    ValidIsFixed(p, true);
  }

  // Main result: on every state that messages can reach, the repair on load changes
  // nothing at all.
  lemma {:induction false} ReloadIsIdentity(ops: seq<Op>, now: string)
    requires forall i :: 0 <= i < |ops| ==> I.IsoUtc(ops[i].now)
    ensures Ensured(After(ops), now) == After(ops)
  {
    RunKeepsState(ops);
    NothingToRepair(After(ops), now);
  }

  lemma NothingToRepair(s: State, now: string)
    requires StateOk(s)
    ensures Ensured(s, now) == s
  {
    NothingToAdopt(s, now);
    assert s.runtimes + map[] == s.runtimes;
    AllKept(s, now);
    assert (map id | id in s.sites :: RepairedSite(s.sites[id])) == s.sites;
  }

  lemma NothingToAdopt(s: State, now: string)
    requires StateOk(s)
    ensures Adopted(s, now) == map[]
  {
  }

  lemma AllKept(s: State, now: string)
    requires StateOk(s)
    ensures Kept(s.sites, s.runtimes, now) == s.runtimes
  {
    forall id | id in s.runtimes
      ensures Normalize(s.runtimes[id], true).Ok? && Repaired(s.runtimes[id], now) == s.runtimes[id]
    {
      StoredIsKept(s.runtimes[id], now);
    }
  }

  // Setting a pointer never takes one away: every key that a site's pointer has, it
  // keeps, and what the message says is what it then has.
  lemma UpsertKeepsKeys(runtimes: map<string, Raw>, other: string, id: string, q: Pointer, now: string)
    requires id in runtimes && runtimes[id].Table?
    ensures var r := Upserted(runtimes, other, q, now);
      id in r && r[id].Table? && runtimes[id].t.Keys <= r[id].t.Keys &&
      (other == id ==> forall f :: f in q && f != UpdatedAt ==> Key(f, 0) in r[id].t && r[id].t[Key(f, 0)] == Str(q[f]))
  {
  }

  lemma SetKeepsKeys(s: State, site: Option<string>, raw: Option<Raw>, now: string, id: string)
    requires id in s.runtimes && s.runtimes[id].Table?
    ensures var t := SetRuntime(s, site, raw, now).0;
      id in t.runtimes && t.runtimes[id].Table? && s.runtimes[id].t.Keys <= t.runtimes[id].t.Keys
  {
    if SetRuntime(s, site, raw, now).1.RuntimeSet? {
      UpsertKeepsKeys(s.runtimes, site.value, id, Normalize(raw.value, false).p, now);
    }
  }

  lemma RegisterKeepsKeys(s: State, m: RegisterMsg, now: string, id: string)
    requires id in s.runtimes && s.runtimes[id].Table?
    ensures var t := Register(s, m, now).0;
      id in t.runtimes && t.runtimes[id].Table? && s.runtimes[id].t.Keys <= t.runtimes[id].t.Keys
  {
    if m.runtime.Some? && Register(s, m, now).1.Registered? {
      UpsertKeepsKeys(s.runtimes, m.id.value, id, Normalize(m.runtime.value, false).p, now);
    }
  }

  lemma {:induction false} PointersAreNeverDropped(ops: seq<Op>, op: Op, id: string)
    requires forall i :: 0 <= i < |ops| ==> I.IsoUtc(ops[i].now)
    requires id in After(ops).runtimes
    ensures var s, t := After(ops), After(ops + [op]);
      id in t.runtimes && s.runtimes[id].Table? && t.runtimes[id].Table? &&
          s.runtimes[id].t.Keys <= t.runtimes[id].t.Keys
  {
    assert (ops + [op])[..|ops|] == ops;
    RunKeepsState(ops);
    match op
    case DoRegister(m, now) => RegisterKeepsKeys(After(ops), m, now, id);
    case DoSet(site, raw, now) => SetKeepsKeys(After(ops), site, raw, now, id);
  }

  // ---------------------------------------------------------------- what readers see

  lemma StoredIsShown(raw: Raw)
    requires StoredOk(raw)
    ensures Snapshot(raw).Some? && Valid(Snapshot(raw).value, true) && raw == AsTable(Snapshot(raw).value)
  {
    var p :| Valid(p, true) && UpdatedAt in p && raw == AsTable(p);
    ValidIsShown(p, true);
  }

  lemma MergedTables(p: Pointer, q: Pointer, now: string)
    ensures AsTable(Merged(p, q, now)).t == (AsTable(p).t + AsTable(q).t)[Key(UpdatedAt, 0) := Str(now)]
  {
    TablesMerge(p, q);
    TableTimed(p + q, now);
  }

  // Over every run, what a site's readers are shown after a pointer was set is what
  // they were shown before, with every field of the new pointer and the new time in
  // its place: nothing that was stored is withheld, nothing else appears.
  lemma {:induction false} SetIsShown(ops: seq<Op>, id: string, raw: Raw, now: string)
    requires (forall i :: 0 <= i < |ops| ==> I.IsoUtc(ops[i].now)) && I.IsoUtc(now)
    requires SetRuntime(After(ops), Some(id), Some(raw), now).1.RuntimeSet?
    ensures var s, q := After(ops), Normalize(raw, false).p;
      var before := I.Or(RuntimeFor(s.runtimes, id), map[]);
      RuntimeFor(SetRuntime(s, Some(id), Some(raw), now).0.runtimes, id) == Some(Merged(before, q, now)) &&
      SetRuntime(s, Some(id), Some(raw), now).1 == RuntimeSet(Merged(before, q, now))
  {
    RunKeepsState(ops);
    NormalizedIsValid(raw, false);
    UpsertedShows(After(ops).runtimes, id, Normalize(raw, false).p, now);
  }

  lemma UpsertedShows(runtimes: map<string, Raw>, id: string, q: Pointer, now: string)
    requires Valid(q, false) && I.IsoUtc(now) && (id in runtimes ==> StoredOk(runtimes[id]))
    ensures var before := I.Or(RuntimeFor(runtimes, id), map[]);
      RuntimeFor(Upserted(runtimes, id, q, now), id) == Some(Merged(before, q, now))
  {
    if id in runtimes {
      StoredIsShown(runtimes[id]);
      MergeShows(Snapshot(runtimes[id]).value, q, now);
    } else {
      FirstShows(q, now);
    }
  }

  lemma MergeShows(p: Pointer, q: Pointer, now: string)
    requires Valid(p, true) && Valid(q, false) && I.IsoUtc(now)
    ensures Snapshot(Table((AsTable(p).t + AsTable(q).t)[Key(UpdatedAt, 0) := Str(now)])) == Some(Merged(p, q, now))
  {
    MergeIsValid(p, q, now);
    MergedTables(p, q, now);
    ValidIsShown(Merged(p, q, now), true);
  }

  lemma FirstShows(q: Pointer, now: string)
    requires Valid(q, false) && I.IsoUtc(now)
    ensures Snapshot(Table((map[] + AsTable(q).t)[Key(UpdatedAt, 0) := Str(now)])) == Some(Merged(map[], q, now))
  {
    assert map[] + AsTable(q).t == AsTable(q).t && map[] + q == q;
    TableTimed(q, now);
    TimedIsValid(q, now);
    ValidIsShown(q[UpdatedAt := now], true);
  }

  // ---------------------------------------------------------------- what a registration does

  predicate SiteIdOk(id: Option<string>) { id.Some? && 0 < |id.value| <= 128 }

  predicate Registrable(m: RegisterMsg) {
    SiteIdOk(m.id) && (m.config.Some? ==> m.config.value.acceptable) &&
    (m.runtime.Some? ==> Normalize(m.runtime.value, false).Ok?)
  }

  // A faulty registration is refused, a known site is left alone and shown, and every
  // other registration is carried out.
  lemma RegisterAnswersExactly(s: State, m: RegisterMsg, now: string)
    ensures var t, reply := Register(s, m, now).0, Register(s, m, now).1;
      if !Registrable(m) then reply.Err? && t == s
      else if m.id.value in s.sites then reply == AlreadyRegistered(RuntimeFor(s.runtimes, m.id.value)) && t == s
      else reply.Registered?
  {
  }

  // The version that becomes active: the configuration's, else the message's, else none.
  function VersionOf(m: RegisterMsg): Option<string> {
    if m.config.Some? && m.config.value.version.Some? then m.config.value.version else m.version
  }

  // Main result: over every run, a registration stores the configuration and the time
  // of its message, makes its version active, and stores and shows its pointer with
  // that time, or none if it brings none; all other sites stay as they are.
  lemma {:induction false} RegisterDoesAsAsked(ops: seq<Op>, m: RegisterMsg, now: string)
    requires (forall i :: 0 <= i < |ops| ==> I.IsoUtc(ops[i].now)) && I.IsoUtc(now)
    requires Register(After(ops), m, now).1.Registered?
    ensures SiteIdOk(m.id)
    ensures var s, t, reply := After(ops), Register(After(ops), m, now).0, Register(After(ops), m, now).1;
      var id := m.id.value;
      id !in s.sites && reply.shown == RuntimeFor(t.runtimes, id) &&
      (if m.runtime.Some? then
         Normalize(m.runtime.value, false).Ok? &&
         reply.shown == Some(Merged(map[], Normalize(m.runtime.value, false).p, now))
       else reply.shown == None) &&
      t.sites == s.sites[id := Site(if m.config.Some? then m.config.value.text else "{}", now, NotATable)] &&
      (id in t.versions <==> VersionOf(m).Some?) && (id in t.versions ==> Some(t.versions[id]) == VersionOf(m)) &&
      forall k :: k != id ==>
        RuntimeFor(t.runtimes, k) == RuntimeFor(s.runtimes, k) &&
        (k in t.versions <==> k in s.versions) && (k in t.versions ==> t.versions[k] == s.versions[k])
  {
    RunKeepsState(ops);
    RegisterShows(After(ops), m, now);
    RegisterLeavesOthers(After(ops), m, now);
  }

  lemma RegisterShows(s: State, m: RegisterMsg, now: string)
    requires StateOk(s) && I.IsoUtc(now) && Register(s, m, now).1.Registered?
    ensures SiteIdOk(m.id) && m.id.value !in s.sites && (m.runtime.Some? ==> Normalize(m.runtime.value, false).Ok?)
    ensures var t, id := Register(s, m, now).0, m.id.value;
      Register(s, m, now).1.shown == RuntimeFor(t.runtimes, id) &&
      RuntimeFor(t.runtimes, id) ==
        if m.runtime.Some? then Some(Merged(map[], Normalize(m.runtime.value, false).p, now)) else None
  {
    assert m.id.value !in s.runtimes;
    if m.runtime.Some? {
      NormalizedIsValid(m.runtime.value, false);
      UpsertedShows(s.runtimes, m.id.value, Normalize(m.runtime.value, false).p, now);
    }
  }

  lemma RegisterLeavesOthers(s: State, m: RegisterMsg, now: string)
    requires Register(s, m, now).1.Registered?
    ensures var t, id := Register(s, m, now).0, m.id.value;
      t.sites == s.sites[id := Site(if m.config.Some? then m.config.value.text else "{}", now, NotATable)] &&
      (id in t.versions <==> VersionOf(m).Some?) && (id in t.versions ==> Some(t.versions[id]) == VersionOf(m)) &&
      forall k :: k != id ==>
        RuntimeFor(t.runtimes, k) == RuntimeFor(s.runtimes, k) &&
        (k in t.versions <==> k in s.versions) && (k in t.versions ==> t.versions[k] == s.versions[k])
  {
  }

  // A pointer is set exactly for a registered site and a pointer in order.
  lemma SetAnswersExactly(s: State, id: Option<string>, raw: Option<Raw>, now: string)
    ensures var t, reply := SetRuntime(s, id, raw, now).0, SetRuntime(s, id, raw, now).1;
      (reply.RuntimeSet? <==>
         SiteIdOk(id) && raw.Some? && id.value in s.sites && Normalize(raw.value, false).Ok?) &&
      (!reply.RuntimeSet? ==> reply.Err? && t == s) &&
      (SiteIdOk(id) && raw.Some? && id.value !in s.sites ==> reply == Err("NOT_FOUND", "Site not registered"))
  {
  }

  // Setting a pointer touches nothing but that site's pointer.
  lemma SetLeavesOthers(s: State, id: Option<string>, raw: Option<Raw>, now: string)
    requires SetRuntime(s, id, raw, now).1.RuntimeSet?
    ensures var t := SetRuntime(s, id, raw, now).0;
      t.sites == s.sites && t.versions == s.versions &&
      forall k :: k != id.value ==> RuntimeFor(t.runtimes, k) == RuntimeFor(s.runtimes, k)
  {
  }

  // ---------------------------------------------------------------- repairing twice

  // A stored pointer that the repair drops while the site itself still holds a good one.
  predicate HidesLegacy(s: State, id: string, now: string) {
    id in s.sites && id in s.runtimes && !Normalize(s.runtimes[id], true).Ok? && Legacy(s.sites[id], now).Some?
  }

  lemma RepairedIsStable(raw: Raw, now: string, later: string)
    requires Normalize(raw, true).Ok? && I.IsoUtc(now)
    ensures Normalize(Repaired(raw, now), true).Ok? && Repaired(Repaired(raw, now), later) == Repaired(raw, now)
  {
    NormalizedIsValid(raw, true);
    var p := WithTime(Normalize(raw, true).p, now);
    if UpdatedAt !in Normalize(raw, true).p { TimedStays(Normalize(raw, true).p, now); }
    ValidIsFixed(p, true);
  }

  lemma TimedStays(p: Pointer, now: string)
    requires Valid(p, true) && I.IsoUtc(now)
    ensures Valid(p[UpdatedAt := now], true)
  {
    var f :| f in p && (Process(f) || Template(f));
    assert f in p[UpdatedAt := now];
  }

  lemma LegacyIsStable(s: Site, now: string, later: string)
    ensures Legacy(RepairedSite(s), now) == Legacy(s, now) && (Legacy(s, now).Some? <==> Legacy(s, later).Some?)
  {
  }

  // What a second repair finds for one site.
  lemma SecondRepairOf(s: State, id: string, now: string, later: string)
    requires I.IsoUtc(now)
    ensures var t := Ensured(s, now);
      id in t.runtimes ==> id in t.sites && Normalize(t.runtimes[id], true).Ok? &&
                           Repaired(t.runtimes[id], later) == t.runtimes[id]
    ensures var t := Ensured(s, now);
      id in t.sites && id !in t.runtimes ==> (Legacy(t.sites[id], later).Some? <==> HidesLegacy(s, id, now))
  {
    var t := Ensured(s, now);
    var all := s.runtimes + Adopted(s, now);
    if id in t.runtimes { RepairedIsStable(all[id], now, later); }
    if id in s.sites {
      LegacyIsStable(s.sites[id], now, later);
      if id !in s.runtimes && Legacy(s.sites[id], now).Some? {
        RepairedIsStable(s.sites[id].legacy, now, later);
        assert id in t.runtimes;
      }
    }
  }

  // The repair on load is done once for all, except that a site whose stored pointer
  // it drops takes up the pointer inside the site at the next load, and only then.
  lemma RepairIsIdempotentExactly(s: State, now: string, later: string)
    requires I.IsoUtc(now) && I.IsoUtc(later)
    ensures Ensured(Ensured(s, now), later) == Ensured(s, now) <==> forall id :: !HidesLegacy(s, id, now)
  {
    var t := Ensured(s, now);
    forall id
      ensures id in t.runtimes ==> id in t.sites && Normalize(t.runtimes[id], true).Ok? &&
                                   Repaired(t.runtimes[id], later) == t.runtimes[id]
      ensures id in t.sites && id !in t.runtimes ==> (Legacy(t.sites[id], later).Some? <==> HidesLegacy(s, id, now))
    {
      SecondRepairOf(s, id, now, later);
    }
    AdoptedLater(t, now, later);
    if id :| HidesLegacy(s, id, now) { SecondAdoption(s, id, now, later); }
    if forall id :: !HidesLegacy(s, id, now) { SecondIsIdle(s, now, later); }
  }

  lemma AdoptedLater(t: State, now: string, later: string)
    ensures forall id ::
      id in Adopted(t, later) <==> id in t.sites && id !in t.runtimes && Legacy(t.sites[id], later).Some?
  {
  }

  lemma SecondAdoption(s: State, id: string, now: string, later: string)
    requires I.IsoUtc(now) && I.IsoUtc(later) && HidesLegacy(s, id, now)
    ensures id !in Ensured(s, now).runtimes && id in Ensured(Ensured(s, now), later).runtimes
  {
    var t := Ensured(s, now);
    LegacyIsStable(s.sites[id], now, later);
    LegacyIsStable(s.sites[id], later, later);
    assert id !in Adopted(s, now) && id !in t.runtimes && id in t.sites && t.sites[id] == RepairedSite(s.sites[id]);
    RepairedIsStable(s.sites[id].legacy, later, later);
    var all := t.runtimes + Adopted(t, later);
    assert id in Adopted(t, later) && all[id] == Repaired(s.sites[id].legacy, later);
  }

  lemma SecondIsIdle(s: State, now: string, later: string)
    requires I.IsoUtc(now) && forall id :: !HidesLegacy(s, id, now)
    ensures Ensured(Ensured(s, now), later) == Ensured(s, now)
  {
    var t := Ensured(s, now);
    forall id
      ensures id in t.runtimes ==> id in t.sites && Normalize(t.runtimes[id], true).Ok? &&
                                   Repaired(t.runtimes[id], later) == t.runtimes[id]
      ensures id in t.sites && id !in t.runtimes ==> !Legacy(t.sites[id], later).Some?
    {
      SecondRepairOf(s, id, now, later);
    }
    NoneAdopted(t, later);
    WholeKept(t.sites, t.runtimes, later);
    SitesAreRepaired(s, now);
    SameAgain(t, later);
  }

  lemma SameAgain(t: State, later: string)
    requires Adopted(t, later) == map[] && Kept(t.sites, t.runtimes, later) == t.runtimes
    requires (map id | id in t.sites :: RepairedSite(t.sites[id])) == t.sites
    ensures Ensured(t, later) == t
  {
    assert t.runtimes + map[] == t.runtimes;
  }

  lemma SitesAreRepaired(s: State, now: string)
    ensures var t := Ensured(s, now); (map id | id in t.sites :: RepairedSite(t.sites[id])) == t.sites
  {
  }

  lemma NoneAdopted(t: State, later: string)
    requires forall id :: id in t.sites && id !in t.runtimes ==> !Legacy(t.sites[id], later).Some?
    ensures Adopted(t, later) == map[]
  {
  }

  lemma WholeKept(sites: map<string, Site>, runtimes: map<string, Raw>, later: string)
    requires forall id :: id in runtimes ==>
      id in sites && Normalize(runtimes[id], true).Ok? && Repaired(runtimes[id], later) == runtimes[id]
    ensures Kept(sites, runtimes, later) == runtimes
  {
  }
}
