// The registry's gateway directory: registering gateways, changing them, and
// choosing one for a host.
module Gateways {
  import opened Wrappers
  import opened TextOrder
  import I = Integrity

  const DOT := 46
  const STAR := 42
  const ONLINE: Text := [111, 110, 108, 105, 110, 101]

  // ---------------------------------------------------------------- host labels

  predicate Space(c: int) { 9 <= c <= 13 || c == 32 }
  predicate LabelChar(c: int) { 97 <= c <= 122 || 65 <= c <= 90 || 48 <= c <= 57 || c == 45 || c == DOT }

  function LowerUnit(c: int): int { if 65 <= c <= 90 then c + 32 else c }

  function Lower(t: Text): Text { seq(|t|, i requires 0 <= i < |t| => LowerUnit(t[i])) }

  function DropSpaces(t: Text): Text { if t != [] && Space(t[0]) then DropSpaces(t[1..]) else t }

  function DropLastSpaces(t: Text): Text { if t != [] && Space(t[|t| - 1]) then DropLastSpaces(t[..|t| - 1]) else t }

  function DropLastDots(t: Text): Text { if t != [] && t[|t| - 1] == DOT then DropLastDots(t[..|t| - 1]) else t }

  // normalize_host_label; the empty text stands for no label.
  function HostLabel(t: Text): Text { DropLastDots(DropLastSpaces(DropSpaces(Lower(t)))) }

  predicate DoubleDot(t: Text) { exists i :: 0 <= i < |t| - 1 && t[i] == DOT && t[i + 1] == DOT }

  predicate AllLabelChars(t: Text) { forall i :: 0 <= i < |t| ==> LabelChar(t[i]) }

  predicate Wildcard(t: Text) { |t| > 2 && t[0] == STAR && t[1] == DOT && AllLabelChars(t[2..]) }

  datatype Label = Label(text: Text) | BadLabel(error: string)

  // validate_gateway_domain_label
  function Validated(t: Text, allowWildcard: bool): Label {
    var n := HostLabel(t);
    if n == [] then BadLabel("invalid_type")
    else if |n| > 255 then BadLabel("too_long")
    else if (exists i :: 0 <= i < |n| && Space(n[i])) || DoubleDot(n) then BadLabel("invalid_format")
    else if n[0] == DOT || n[|n| - 1] == DOT then BadLabel("invalid_format")
    else if STAR in n then if allowWildcard && Wildcard(n) then Label(n) else BadLabel("invalid_format")
    else if AllLabelChars(n) then Label(n) else BadLabel("invalid_format")
  }

  predicate IsLower(t: Text) { forall i :: 0 <= i < |t| ==> LowerUnit(t[i]) == t[i] }

  lemma {:induction false} DropsKeepLower(t: Text)
    requires IsLower(t)
    ensures IsLower(DropSpaces(t)) && IsLower(DropLastSpaces(t)) && IsLower(DropLastDots(t))
  {
    if t != [] {
      DropsKeepLower(t[1..]);
      DropsKeepLower(t[..|t| - 1]);
    }
  }

  lemma {:induction false} HostLabelIsLower(t: Text)
    ensures IsLower(HostLabel(t))
  {
    DropsKeepLower(Lower(t));
    DropsKeepLower(DropSpaces(Lower(t)));
    DropsKeepLower(DropLastSpaces(DropSpaces(Lower(t))));
  }

  // A label that passed validation passes again, unchanged.
  lemma {:induction false} ValidatedIsStable(t: Text, allowWildcard: bool)
    requires Validated(t, allowWildcard).Label?
    ensures Validated(Validated(t, allowWildcard).text, allowWildcard) == Validated(t, allowWildcard)
  {
    var n := HostLabel(t);
    HostLabelIsLower(t);
    assert Lower(n) == n;
  }

  // ---------------------------------------------------------------- domains

  datatype DomainsField = NoDomains | OneDomain(t: Text) | ManyDomains(ts: seq<Text>) | NotDomains

  datatype DomainList = DomainList(ds: seq<Text>) | BadDomains(error: string)

  // The validated labels in order of first occurrence, after those in `out`.
  function Collect(raw: seq<Text>, out: seq<Text>): DomainList
    decreases |raw|
  {
    if raw == [] then DomainList(out)
    else
      var v := Validated(raw[0], true);
      if v.BadLabel? then BadDomains(v.error)
      else Collect(raw[1..], if v.text in out then out else out + [v.text])
  }

  function Normalized(f: DomainsField): DomainList {
    if f.NotDomains? then BadDomains("Domains must be string or array")
    else
      var raw := if f.NoDomains? then [] else if f.OneDomain? then [f.t] else f.ts;
      var c := Collect(raw, []);
      if c.DomainList? then DomainList(SortKeys(c.ds)) else c
  }

  method NormalizeGatewayDomains(f: DomainsField) returns (r: DomainList)
    ensures r == Normalized(f)
  {
    if f.NoDomains? { return DomainList([]); }
    if f.NotDomains? { return BadDomains("Domains must be string or array"); }
    var raw := if f.OneDomain? then [f.t] else f.ts;
    var seen: set<Text>, out: seq<Text> := {}, [];
    for i := 0 to |raw|
      invariant Collect(raw, []) == Collect(raw[i..], out)
      invariant forall x :: x in seen <==> x in out
    {
      var v := Validated(raw[i], true);
      assert raw[i..][1..] == raw[i + 1..];
      if v.BadLabel? { return BadDomains(v.error); }
      if v.text !in seen {
        seen, out := seen + {v.text}, out + [v.text];
      }
    }
    assert raw[|raw|..] == [];
    r := DomainList(SortKeys(out));
  }

  predicate ValidDomain(d: Text) { Validated(d, true) == Label(d) }

  lemma {:induction false} CollectIsValid(raw: seq<Text>, out: seq<Text>)
    requires Distinct(out) && forall d :: d in out ==> ValidDomain(d)
    ensures var c := Collect(raw, out); c.DomainList? ==> Distinct(c.ds) && forall d :: d in c.ds ==> ValidDomain(d)
    decreases |raw|
  {
    if raw != [] && Validated(raw[0], true).Label? {
      ValidatedIsStable(raw[0], true);
      var v := Validated(raw[0], true).text;
      CollectIsValid(raw[1..], if v in out then out else out + [v]);
    }
  }

  lemma NormalizedIsValid(f: DomainsField)
    ensures var r := Normalized(f); r.DomainList? ==> Sorted(r.ds) && forall d :: d in r.ds ==> ValidDomain(d)
  {
    if Normalized(f).DomainList? {
      var raw := if f.NoDomains? then [] else if f.OneDomain? then [f.t] else f.ts;
      CollectIsValid(raw, []);
      SortSorts(Collect(raw, []).ds);
    }
  }

  predicate EndsWith(t: Text, tail: Text) { |tail| <= |t| && t[|t| - |tail|..] == tail }

  predicate Matches(host: Text, domain: Text) {
    host == domain || (|domain| >= 2 && domain[0] == STAR && domain[1] == DOT && EndsWith(host, domain[1..]))
  }

  // A wildcard matches the hosts below its suffix and no other; the suffix itself is not below itself.
  lemma {:induction false} WildcardExact(host: Text, suffix: Text)
    requires STAR !in host
    ensures Matches(host, [STAR, DOT] + suffix) <==> exists x: Text :: host == x + [DOT] + suffix
    ensures !Matches(suffix, [STAR, DOT] + suffix)
  {
    var domain := [STAR, DOT] + suffix;
    assert domain[0] == STAR && domain[1..] == [DOT] + suffix;
    assert domain[0] in domain;
    if EndsWith(host, domain[1..]) {
      assert host == host[..|host| - |suffix| - 1] + domain[1..] == host[..|host| - |suffix| - 1] + [DOT] + suffix;
    }
    if x: Text :| host == x + [DOT] + suffix {
      assert host[|host| - |domain[1..]|..] == domain[1..];
    }
  }

  // ---------------------------------------------------------------- the directory

  datatype Gateway = Gateway(id: Text, url: string, region: string, country: string, capacityWeight: real, score: real,
                             status: string, lastSeen: string, domains: seq<Text>)

  type Directory = map<Text, Gateway>

  datatype Reply =
    | Err(code: string, detail: string)
    | Registered(gateway: Gateway)
    | AlreadyRegistered(gateway: Gateway)
    | Updated(gateway: Gateway)

  predicate GatewayId(t: Text) { 0 < |t| <= 128 && forall i :: 0 <= i < |t| ==> LabelChar(t[i]) || t[i] == 95 }

  predicate Url(s: string) {
    |s| <= 512 && (forall i :: 0 <= i < |s| ==> !Space(s[i] as int)) &&
    (("http://" <= s && |s| > 7 && Alnum(s[7])) || ("https://" <= s && |s| > 8 && Alnum(s[8])))
  }

  predicate Alnum(c: char) { 'a' <= c <= 'z' || 'A' <= c <= 'Z' || '0' <= c <= '9' }

  predicate Name(s: string, max: nat) { |s| <= max && I.Token(s) }

  predicate Status(s: string) { I.Lower(s) in {"online", "offline", "degraded", "draining", "maintenance"} }

  predicate Amount(n: I.Number) { n.Number? && n.r >= 0.0 }

  datatype RegisterMsg = RegisterMsg(id: Option<Text>, url: Option<string>, region: Option<string>,
                                     country: Option<string>, weight: I.Number, score: I.Number, status: Option<string>,
                                     lastSeen: Option<string>, domains: DomainsField)

  predicate Complete(m: RegisterMsg) {
    m.id.Some? && m.url.Some? && m.region.Some? && m.country.Some? && !m.weight.Absent? && !m.score.Absent? &&
    m.status.Some?
  }

  // The first field of a registration that is at fault, if any.
  function RegisterFault(m: RegisterMsg, now: string): Option<string>
    requires Complete(m)
  {
    if !GatewayId(m.id.value) then Some("Gateway-Id")
    else if !Url(m.url.value) then Some("Url")
    else if !Name(m.region.value, 64) then Some("Region")
    else if !Name(m.country.value, 16) then Some("Country")
    else if !Amount(m.weight) then Some("Capacity-Weight")
    else if !Amount(m.score) then Some("Score")
    else if !Status(m.status.value) then Some("Status")
    else if !I.IsoUtc(I.Or(m.lastSeen, now)) then Some("Last-Seen")
    else if Normalized(m.domains).BadDomains? then Some("Domains")
    else None
  }

  function NewGateway(m: RegisterMsg, now: string): Gateway
    requires Complete(m) && RegisterFault(m, now).None?
  {
    Gateway(m.id.value, m.url.value, m.region.value, m.country.value, m.weight.r, m.score.r, I.Lower(m.status.value),
            I.Or(m.lastSeen, now), Normalized(m.domains).ds)
  }

  function Register(d: Directory, m: RegisterMsg, now: string): (Directory, Reply) {
    if !Complete(m) then (d, Err("INVALID_INPUT", "Missing required field"))
    else if RegisterFault(m, now).Some? then (d, Err("INVALID_INPUT", RegisterFault(m, now).value))
    else if m.id.value in d then (d, AlreadyRegistered(d[m.id.value]))
    else (d[m.id.value := NewGateway(m, now)], Registered(NewGateway(m, now)))
  }

  datatype UpdateMsg = UpdateMsg(id: Option<Text>, status: Option<string>, score: I.Number, weight: I.Number,
                                 lastSeen: Option<string>, domains: DomainsField)

  predicate NothingToUpdate(m: UpdateMsg) {
    m.status.None? && m.score.Absent? && m.weight.Absent? && m.lastSeen.None? && m.domains.NoDomains?
  }

  // Each field of an update: whether it is at fault, and what it writes.
  predicate BadStatus(m: UpdateMsg) { m.status.Some? && !Status(m.status.value) }
  predicate BadScore(m: UpdateMsg) { !m.score.Absent? && !Amount(m.score) }
  predicate BadWeight(m: UpdateMsg) { !m.weight.Absent? && !Amount(m.weight) }
  predicate BadSeen(m: UpdateMsg) { m.lastSeen.Some? && !I.IsoUtc(m.lastSeen.value) }
  predicate BadDomainList(m: UpdateMsg) { Normalized(m.domains).BadDomains? }

  function WithStatus(g: Gateway, m: UpdateMsg): Gateway {
    if m.status.Some? then g.(status := I.Lower(m.status.value)) else g
  }

  function WithScore(g: Gateway, m: UpdateMsg): Gateway {
    if m.score.Number? then g.(score := m.score.r) else g
  }

  function WithWeight(g: Gateway, m: UpdateMsg): Gateway {
    if m.weight.Number? then g.(capacityWeight := m.weight.r) else g
  }

  function WithSeen(g: Gateway, m: UpdateMsg): Gateway {
    if m.lastSeen.Some? then g.(lastSeen := m.lastSeen.value) else g
  }

  function WithDomains(g: Gateway, m: UpdateMsg): Gateway {
    if !m.domains.NoDomains? && Normalized(m.domains).DomainList? then g.(domains := Normalized(m.domains).ds) else g
  }

  // Field after field is checked and written at once, so a later fault leaves the earlier fields changed.
  function UpdateFields(g: Gateway, m: UpdateMsg): (Gateway, Option<string>) {
    if BadStatus(m) then (g, Some("Status"))
    else
      var g1 := WithStatus(g, m);
      if BadScore(m) then (g1, Some("Score"))
      else
        var g2 := WithScore(g1, m);
        if BadWeight(m) then (g2, Some("Capacity-Weight"))
        else
          var g3 := WithWeight(g2, m);
          if BadSeen(m) then (g3, Some("Last-Seen"))
          else
            var g4 := WithSeen(g3, m);
            if BadDomainList(m) then (g4, Some("Domains")) else (WithDomains(g4, m), None)
  }

  function Update(d: Directory, m: UpdateMsg): (Directory, Reply) {
    if m.id.None? then (d, Err("INVALID_INPUT", "Missing required field"))
    else if !GatewayId(m.id.value) then (d, Err("INVALID_INPUT", "Gateway-Id"))
    else if m.id.value !in d then (d, Err("NOT_FOUND", "Gateway not registered"))
    else if NothingToUpdate(m) then (d, Err("INVALID_INPUT", "No mutable fields supplied"))
    else
      var o := UpdateFields(d[m.id.value], m);
      (d[m.id.value := o.0], if o.1.Some? then Err("INVALID_INPUT", o.1.value) else Updated(o.0))
  }

  // An error of an update leaves a trace exactly if a field before the first
  // faulty one is present and differs from what is stored.
  lemma UpdateErrorLeavesTrace(d: Directory, m: UpdateMsg)
    requires Update(d, m).1.Err?
    ensures Update(d, m).0 != d <==>
      m.id.Some? && GatewayId(m.id.value) && m.id.value in d && !BadStatus(m) &&
      var g := d[m.id.value];
      (m.status.Some? && I.Lower(m.status.value) != g.status) ||
      (!BadScore(m) &&
       ((m.score.Number? && m.score.r != g.score) ||
        (!BadWeight(m) &&
         ((m.weight.Number? && m.weight.r != g.capacityWeight) ||
          (!BadSeen(m) && m.lastSeen.Some? && m.lastSeen.value != g.lastSeen)))))
  {
    if m.id.Some? && m.id.value in d { assert Update(d, m).0 != d ==> Update(d, m).0[m.id.value] != d[m.id.value]; }
  }

  // What every gateway in the directory satisfies.
  predicate GatewayOk(k: Text, g: Gateway) {
    g.id == k && GatewayId(k) && g.score >= 0.0 && g.capacityWeight >= 0.0 &&
    g.status in {"online", "offline", "degraded", "draining", "maintenance"} && Sorted(g.domains) &&
    forall d :: d in g.domains ==> ValidDomain(d)
  }

  predicate DirectoryOk(d: Directory) { forall k :: k in d ==> GatewayOk(k, d[k]) }

  lemma {:induction false} WritesAreOk(k: Text, g: Gateway, m: UpdateMsg)
    requires GatewayOk(k, g)
    ensures !BadStatus(m) ==> GatewayOk(k, WithStatus(g, m))
    ensures !BadScore(m) ==> GatewayOk(k, WithScore(g, m))
    ensures !BadWeight(m) ==> GatewayOk(k, WithWeight(g, m))
    ensures GatewayOk(k, WithSeen(g, m))
  {
  }

  lemma {:induction false} DomainWriteIsOk(k: Text, g: Gateway, m: UpdateMsg)
    requires GatewayOk(k, g)
    ensures GatewayOk(k, WithDomains(g, m))
  {
    NormalizedIsValid(m.domains);
  }

  lemma {:induction false} UpdatedIsOk(k: Text, g: Gateway, m: UpdateMsg)
    requires GatewayOk(k, g)
    ensures GatewayOk(k, UpdateFields(g, m).0)
  {
    var g1 := WithStatus(g, m);
    var g2 := WithScore(g1, m);
    var g3 := WithWeight(g2, m);
    WritesAreOk(k, g, m);
    if !BadStatus(m) {
      WritesAreOk(k, g1, m);
      if !BadScore(m) {
        WritesAreOk(k, g2, m);
        if !BadWeight(m) {
          WritesAreOk(k, g3, m);
          DomainWriteIsOk(k, WithSeen(g3, m), m);
        }
      }
    }
  }

  lemma RegisterKeepsDirectory(d: Directory, m: RegisterMsg, now: string)
    requires DirectoryOk(d)
    ensures DirectoryOk(Register(d, m, now).0)
  {
    NormalizedIsValid(m.domains);
  }

  lemma UpdateKeepsDirectory(d: Directory, m: UpdateMsg)
    requires DirectoryOk(d)
    ensures DirectoryOk(Update(d, m).0)
  {
    if m.id.Some? && m.id.value in d { UpdatedIsOk(m.id.value, d[m.id.value], m); }
  }

  datatype Op = DoRegister(r: RegisterMsg, now: string) | DoUpdate(u: UpdateMsg)

  function After(ops: seq<Op>): Directory
    decreases |ops|
  {
    if ops == [] then map[]
    else
      match ops[|ops| - 1]
      case DoRegister(m, now) => Register(After(ops[..|ops| - 1]), m, now).0
      case DoUpdate(m) => Update(After(ops[..|ops| - 1]), m).0
  }

  // Over any run, errors included, every gateway stays filed under its own id with
  // sorted valid domains, so no two gateways ever tie when a host is resolved.
  lemma {:induction false} RunKeepsDirectory(ops: seq<Op>)
    ensures DirectoryOk(After(ops))
    decreases |ops|
  {
    if ops != [] {
      var d := After(ops[..|ops| - 1]);
      RunKeepsDirectory(ops[..|ops| - 1]);
      match ops[|ops| - 1]
      case DoRegister(m, now) => RegisterKeepsDirectory(d, m, now);
      case DoUpdate(m) => UpdateKeepsDirectory(d, m);
    }
  }

  // ---------------------------------------------------------------- sorting by a comparator

  function InsertBy<T>(before: (T, T) -> bool, c: T, cs: seq<T>): seq<T> {
    if cs == [] || before(c, cs[0]) then [c] + cs else [cs[0]] + InsertBy(before, c, cs[1..])
  }

  // table.sort with a comparator
  function SortBy<T>(before: (T, T) -> bool, cs: seq<T>): seq<T> {
    if cs == [] then [] else InsertBy(before, cs[0], SortBy(before, cs[1..]))
  }

  ghost predicate Transitive<T(!new)>(before: (T, T) -> bool) {
    forall a, b, c :: before(a, b) && before(b, c) ==> before(a, c)
  }

  ghost predicate Total<T>(before: (T, T) -> bool, cs: seq<T>) {
    forall i, j :: 0 <= i < j < |cs| ==> before(cs[i], cs[j]) || before(cs[j], cs[i])
  }

  ghost predicate Ordered<T>(before: (T, T) -> bool, cs: seq<T>) {
    forall i, j :: 0 <= i < j < |cs| ==> before(cs[i], cs[j])
  }

  lemma {:induction false} InsertOrders<T(!new)>(before: (T, T) -> bool, c: T, cs: seq<T>)
    requires Transitive(before) && Ordered(before, cs) && forall k :: k in cs ==> before(c, k) || before(k, c)
    ensures Ordered(before, InsertBy(before, c, cs))
    ensures forall x :: x in InsertBy(before, c, cs) <==> x == c || x in cs
  {
    if cs != [] {
      assert cs == [cs[0]] + cs[1..];
      if before(c, cs[0]) {
        assert forall i :: 0 < i < |cs| ==> before(c, cs[i]);
      } else {
        InsertOrders(before, c, cs[1..]);
        var r := InsertBy(before, c, cs[1..]);
        forall i | 0 <= i < |r| ensures before(cs[0], r[i]) {
          assert r[i] in r;
          if r[i] != c { var j :| 0 <= j < |cs[1..]| && cs[1..][j] == r[i]; }
        }
      }
    }
  }

  lemma {:induction false} SortOrders<T(!new)>(before: (T, T) -> bool, cs: seq<T>)
    requires Transitive(before) && Total(before, cs)
    ensures Ordered(before, SortBy(before, cs))
    ensures forall x :: x in SortBy(before, cs) <==> x in cs
  {
    if cs != [] {
      assert cs == [cs[0]] + cs[1..];
      SortOrders(before, cs[1..]);
      forall k | k in SortBy(before, cs[1..]) ensures before(cs[0], k) || before(k, cs[0]) {
        var j :| 0 <= j < |cs[1..]| && cs[1..][j] == k;
      }
      InsertOrders(before, cs[0], SortBy(before, cs[1..]));
    }
  }

  // ---------------------------------------------------------------- choosing and listing

  datatype Candidate = Candidate(gateway: Gateway, matchedDomain: Text)

  // Score, then capacity, then id.
  predicate Beats(a: Gateway, b: Gateway) {
    if a.score != b.score then a.score > b.score
    else if a.capacityWeight != b.capacityWeight then a.capacityWeight > b.capacityWeight
    else Less(a.id, b.id)
  }

  predicate Preferred(a: Candidate, b: Candidate) { Beats(a.gateway, b.gateway) }

  predicate IdBefore(a: Gateway, b: Gateway) { Less(a.id, b.id) }

  lemma OrdersAreTransitive()
    ensures Transitive(Preferred) && Transitive(IdBefore)
  {
    forall a: Candidate, b: Candidate, c: Candidate | Preferred(a, b) && Preferred(b, c) ensures Preferred(a, c) {
      if Less(a.gateway.id, b.gateway.id) && Less(b.gateway.id, c.gateway.id) {
        LessTransitive(a.gateway.id, b.gateway.id, c.gateway.id);
      }
    }
    forall a: Gateway, b: Gateway, c: Gateway | IdBefore(a, b) && IdBefore(b, c) ensures IdBefore(a, c) {
      LessTransitive(a.id, b.id, c.id);
    }
  }

  lemma OneBeatsTheOther(a: Gateway, b: Gateway)
    requires a.id != b.id
    ensures Beats(a, b) || Beats(b, a)
    ensures IdBefore(a, b) || IdBefore(b, a)
  {
    LessTotal(a.id, b.id);
  }

  lemma NotBoth(a: Gateway, b: Gateway)
    requires Beats(a, b)
    ensures !Beats(b, a)
  {
    LessTotal(a.id, b.id);
  }

  function FirstMatch(host: Text, ds: seq<Text>): (d: Option<Text>)
    ensures d.Some? ==> d.value in ds && Matches(host, d.value)
    ensures d.None? <==> forall x :: x in ds ==> !Matches(host, x)
  {
    if ds == [] then None
    else if Matches(host, ds[0]) then Some(ds[0])
    else
      assert ds == [ds[0]] + ds[1..];
      FirstMatch(host, ds[1..])
  }

  predicate Serves(g: Gateway, status: Option<string>, host: Option<Text>) {
    (status.Some? ==> g.status == status.value) && (host.Some? ==> FirstMatch(host.value, g.domains).Some?)
  }

  predicate Eligible(d: Directory, host: Text, k: Text) { k in d && Serves(d[k], Some("online"), Some(host)) }

  datatype Choice = Refused(error: string) | NoCandidate | Chosen(host: Text, matchedDomain: Text, gateway: Gateway)

  // The best eligible gateway, better than every other; none if none is eligible.
  ghost predicate Best(d: Directory, host: Text, c: Choice) {
    (c.NoCandidate? && forall k :: !Eligible(d, host, k)) ||
    (c.Chosen? && c.host == host && Eligible(d, host, c.gateway.id) && d[c.gateway.id] == c.gateway &&
     FirstMatch(host, c.gateway.domains) == Some(c.matchedDomain) &&
     forall k :: Eligible(d, host, k) && k != c.gateway.id ==> Beats(c.gateway, d[k]))
  }

  ghost predicate Resolves(d: Directory, field: Option<Text>, c: Choice) {
    if field.None? then c == Refused("Host is required")
    else if Validated(field.value, false).BadLabel? then c == Refused(Validated(field.value, false).error)
    else Best(d, Validated(field.value, false).text, c)
  }

  // The answer does not depend on the order in which the table is walked.
  lemma {:induction false} ResolutionIsDetermined(d: Directory, field: Option<Text>, c: Choice, e: Choice)
    requires Resolves(d, field, c) && Resolves(d, field, e)
    ensures c == e
  {
    if c.Chosen? && e.Chosen? && c.gateway.id != e.gateway.id {
      NotBoth(c.gateway, e.gateway);
    }
  }

  datatype Listing = BadFilter(error: string) | Listing(gateways: seq<Gateway>)

  ghost predicate Lists(d: Directory, status: Option<string>, host: Option<Text>, l: Listing) {
    if status.Some? && !Status(status.value) then l == BadFilter("Status")
    else if host.Some? && Validated(host.value, false).BadLabel? then l == BadFilter(Validated(host.value, false).error)
    else
      var s := if status.Some? then Some(I.Lower(status.value)) else None;
      var h := if host.Some? then Some(Validated(host.value, false).text) else None;
      l.Listing? && Ordered(IdBefore, l.gateways) &&
      forall g :: g in l.gateways <==> g.id in d && d[g.id] == g && Serves(g, s, h)
  }

  // Main result: a host resolves exactly if the list of online gateways for it is
  // not empty, and then to a member of that list.
  lemma {:induction false} ResolvesToListed(d: Directory, host: Text, c: Choice, l: Listing)
    requires DirectoryOk(d) && Resolves(d, Some(host), c) && Lists(d, Some("online"), Some(host), l)
    ensures c.Refused? <==> l.BadFilter?
    ensures l.Listing? ==> (c.NoCandidate? <==> l.gateways == [])
    ensures c.Chosen? ==> l.Listing? && c.gateway in l.gateways
  {
    var h := Validated(host, false);
    OnlineIsAStatus();
    if h.Label? { ListedIffEligible(d, h.text, c, l.gateways); }
  }

  lemma OnlineIsAStatus()
    ensures I.Lower("online") == "online" && Status("online")
  {
    assert I.Lower("online") == "online";
  }

  lemma {:induction false} ListedIffEligible(d: Directory, h: Text, c: Choice, gs: seq<Gateway>)
    requires Best(d, h, c) && forall g :: g in gs <==> g.id in d && d[g.id] == g && Serves(g, Some("online"), Some(h))
    ensures (c.NoCandidate? <==> gs == []) && (c.Chosen? ==> c.gateway in gs)
  {
    if gs != [] { assert gs[0] in gs && Eligible(d, h, gs[0].id); }
  }

  // Registering an online gateway makes the hosts of its domains resolvable, to a
  // gateway with no lower score.
  lemma RegisteredResolves(d: Directory, m: RegisterMsg, now: string, host: Text, c: Choice)
    requires Register(d, m, now).1.Registered? && I.Lower(m.status.value) == "online"
    requires Validated(host, false).Label? && FirstMatch(Validated(host, false).text, Normalized(m.domains).ds).Some?
    requires Resolves(Register(d, m, now).0, Some(host), c)
    ensures c.Chosen? && c.gateway.score >= m.score.r
  {
    var e := Register(d, m, now).0;
    assert Eligible(e, Validated(host, false).text, m.id.value);
  }

  // A gateway that an update took offline is not chosen for any host.
  lemma OfflineIsNeverChosen(d: Directory, m: UpdateMsg, host: Text, c: Choice)
    requires Update(d, m).1.Updated? && m.status.Some? && I.Lower(m.status.value) != "online"
    requires Resolves(Update(d, m).0, Some(host), c)
    ensures c.Chosen? ==> c.gateway.id != m.id.value
  {
  }

  predicate IsCandidate(d: Directory, host: Text, c: Candidate) {
    Eligible(d, host, c.gateway.id) && d[c.gateway.id] == c.gateway &&
    FirstMatch(host, c.gateway.domains) == Some(c.matchedDomain)
  }

  // The candidates for a host, each once, in whatever order.
  ghost predicate AllCandidates(d: Directory, host: Text, cs: seq<Candidate>) {
    (forall c :: c in cs <==> IsCandidate(d, host, c)) &&
    forall i, j :: 0 <= i < j < |cs| ==> cs[i].gateway.id != cs[j].gateway.id
  }

  // One more gateway is looked at.
  lemma {:induction false} NextCandidate(d: Directory, e: Directory, host: Text, cs: seq<Candidate>, g: Gateway)
    requires AllCandidates(d, host, cs) && g.id !in d && e == d[g.id := g]
    ensures var m := FirstMatch(host, g.domains);
      AllCandidates(e, host, if g.status == "online" && m.Some? then cs + [Candidate(g, m.value)] else cs)
  {
    var m := FirstMatch(host, g.domains);
    var r := if g.status == "online" && m.Some? then cs + [Candidate(g, m.value)] else cs;
    forall c ensures c in r <==> IsCandidate(e, host, c) { assert c in cs <==> IsCandidate(d, host, c); }
    assert forall i :: 0 <= i < |cs| ==> cs[i] in cs;
  }

  lemma {:induction false} SortedCandidates(d: Directory, host: Text, cs: seq<Candidate>)
    requires DirectoryOk(d) && AllCandidates(d, host, cs)
    ensures var r := SortBy(Preferred, cs);
      if r == [] then Best(d, host, NoCandidate) else Best(d, host, Chosen(host, r[0].matchedDomain, r[0].gateway))
  {
    var r := SortBy(Preferred, cs);
    OrdersAreTransitive();
    forall i, j | 0 <= i < j < |cs| ensures Preferred(cs[i], cs[j]) || Preferred(cs[j], cs[i]) {
      OneBeatsTheOther(cs[i].gateway, cs[j].gateway);
    }
    SortOrders(Preferred, cs);
    forall k | Eligible(d, host, k) ensures r != [] && (k != r[0].gateway.id ==> Beats(r[0].gateway, d[k])) {
      FirstIsBest(d, host, r, k);
    }
    if r != [] { assert r[0] in r; }
  }

  lemma {:induction false} FirstIsBest(d: Directory, host: Text, r: seq<Candidate>, k: Text)
    requires DirectoryOk(d) && Eligible(d, host, k) && Ordered(Preferred, r)
    requires forall c: Candidate :: IsCandidate(d, host, c) ==> c in r
    ensures r != [] && (k != r[0].gateway.id ==> Beats(r[0].gateway, d[k]))
  {
    var c := Candidate(d[k], FirstMatch(host, d[k].domains).value);
    assert c.gateway.id == k && c in r;
    var i :| 0 <= i < |r| && r[i] == c;
    if i > 0 { assert Preferred(r[0], r[i]); }
  }

  // The gateways that pass the filters, each once, in whatever order.
  ghost predicate AllListed(d: Directory, s: Option<string>, h: Option<Text>, gs: seq<Gateway>) {
    (forall g :: g in gs <==> g.id in d && d[g.id] == g && Serves(g, s, h)) &&
    forall i, j :: 0 <= i < j < |gs| ==> gs[i].id != gs[j].id
  }

  // One more gateway is looked at.
  lemma {:induction false} NextListed(d: Directory, e: Directory, s: Option<string>, h: Option<Text>,
      gs: seq<Gateway>, g: Gateway)
    requires AllListed(d, s, h, gs) && g.id !in d && e == d[g.id := g]
    ensures AllListed(e, s, h, if Serves(g, s, h) then gs + [g] else gs)
  {
    var r := if Serves(g, s, h) then gs + [g] else gs;
    forall x ensures x in r <==> x.id in e && e[x.id] == x && Serves(x, s, h) {
      assert x in gs <==> x.id in d && d[x.id] == x && Serves(x, s, h);
    }
    assert forall i :: 0 <= i < |gs| ==> gs[i] in gs;
  }

  lemma {:induction false} SortedListing(d: Directory, s: Option<string>, h: Option<Text>, gs: seq<Gateway>)
    requires AllListed(d, s, h, gs)
    ensures Ordered(IdBefore, SortBy(IdBefore, gs)) && forall g :: g in SortBy(IdBefore, gs) <==> g in gs
  {
    OrdersAreTransitive();
    forall i, j | 0 <= i < j < |gs| ensures IdBefore(gs[i], gs[j]) || IdBefore(gs[j], gs[i]) {
      OneBeatsTheOther(gs[i], gs[j]);
    }
    SortOrders(IdBefore, gs);
  }

  class GatewayDirectory {
    var gateways: Directory

    constructor ()
      ensures gateways == map[]
    {
      gateways := map[];
    }

    method RegisterGateway(m: RegisterMsg, now: string) returns (reply: Reply)
      modifies this
      ensures (gateways, reply) == Register(old(gateways), m, now)
    {
      if !Complete(m) { return Err("INVALID_INPUT", "Missing required field"); }
      var fault := RegisterFault(m, now);
      if fault.Some? { return Err("INVALID_INPUT", fault.value); }
      if m.id.value in gateways { return AlreadyRegistered(gateways[m.id.value]); }
      var gateway := NewGateway(m, now);
      gateways := gateways[m.id.value := gateway];
      reply := Registered(gateway);
    }

    method UpdateGatewayStatus(m: UpdateMsg) returns (reply: Reply)
      modifies this
      ensures (gateways, reply) == Update(old(gateways), m)
    {
      if m.id.None? { return Err("INVALID_INPUT", "Missing required field"); }
      var id := m.id.value;
      if !GatewayId(id) { return Err("INVALID_INPUT", "Gateway-Id"); }
      if id !in gateways { return Err("NOT_FOUND", "Gateway not registered"); }
      if NothingToUpdate(m) { return Err("INVALID_INPUT", "No mutable fields supplied"); }
      var gateway, fault := WriteFields(gateways[id], m);
      gateways := gateways[id := gateway];     // also when a later field was at fault
      reply := if fault.Some? then Err("INVALID_INPUT", fault.value) else Updated(gateway);
    }

    static method WriteFields(g: Gateway, m: UpdateMsg) returns (gateway: Gateway, fault: Option<string>)
      ensures (gateway, fault) == UpdateFields(g, m)
    {
      gateway := g;
      if m.status.Some? {
        if !Status(m.status.value) { return gateway, Some("Status"); }
        gateway := gateway.(status := I.Lower(m.status.value));
      }
      if !m.score.Absent? {
        if !Amount(m.score) { return gateway, Some("Score"); }
        gateway := gateway.(score := m.score.r);
      }
      if !m.weight.Absent? {
        if !Amount(m.weight) { return gateway, Some("Capacity-Weight"); }
        gateway := gateway.(capacityWeight := m.weight.r);
      }
      if m.lastSeen.Some? {
        if !I.IsoUtc(m.lastSeen.value) { return gateway, Some("Last-Seen"); }
        gateway := gateway.(lastSeen := m.lastSeen.value);
      }
      if !m.domains.NoDomains? {
        var domains := NormalizeGatewayDomains(m.domains);
        if domains.BadDomains? { return gateway, Some("Domains"); }
        gateway := gateway.(domains := domains.ds);
      }
      fault := None;
    }

    method Candidates(host: Text) returns (cs: seq<Candidate>)
      requires DirectoryOk(gateways)
      ensures AllCandidates(gateways, host, cs)
    {
      var todo := gateways.Keys;
      cs := [];
      while todo != {}
        invariant todo <= gateways.Keys
        invariant AllCandidates(gateways - todo, host, cs)
        decreases todo
      {
        var k :| k in todo;
        var gateway := gateways[k];
        NextCandidate(gateways - todo, gateways - (todo - {k}), host, cs, gateway);
        if gateway.status == "online" {
          var domain := FirstMatch(host, gateway.domains);
          if domain.Some? { cs := cs + [Candidate(gateway, domain.value)]; }
        }
        todo := todo - {k};
      }
      assert gateways - {} == gateways;
    }

    method ResolveGatewayForHost(field: Option<Text>) returns (c: Choice)
      requires DirectoryOk(gateways)
      ensures Resolves(gateways, field, c)
    {
      if field.None? { return Refused("Host is required"); }
      var checked := Validated(field.value, false);
      if checked.BadLabel? { return Refused(checked.error); }
      var host := checked.text;
      var candidates := Candidates(host);
      SortedCandidates(gateways, host, candidates);
      var sorted := SortBy(Preferred, candidates);
      if |sorted| == 0 { return NoCandidate; }
      c := Chosen(host, sorted[0].matchedDomain, sorted[0].gateway);
    }

    method ListGateways(status: Option<string>, host: Option<Text>) returns (l: Listing)
      requires DirectoryOk(gateways)
      ensures Lists(gateways, status, host, l)
    {
      var statusFilter: Option<string>, hostFilter: Option<Text> := None, None;
      if status.Some? {
        if !Status(status.value) { return BadFilter("Status"); }
        statusFilter := Some(I.Lower(status.value));
      }
      if host.Some? {
        var checked := Validated(host.value, false);
        if checked.BadLabel? { return BadFilter(checked.error); }
        hostFilter := Some(checked.text);
      }
      var list := Filtered(statusFilter, hostFilter);
      SortedListing(gateways, statusFilter, hostFilter, list);
      l := Listing(SortBy(IdBefore, list));
    }

    method Filtered(status: Option<string>, host: Option<Text>) returns (list: seq<Gateway>)
      requires DirectoryOk(gateways)
      ensures AllListed(gateways, status, host, list)
    {
      var todo := gateways.Keys;
      list := [];
      while todo != {}
        invariant todo <= gateways.Keys
        invariant AllListed(gateways - todo, status, host, list)
        decreases todo
      {
        var k :| k in todo;
        var gateway := gateways[k];
        NextListed(gateways - todo, gateways - (todo - {k}), status, host, list, gateway);
        var take := status.None? || gateway.status == status.value;
        if take && host.Some? { take := FirstMatch(host.value, gateway.domains).Some?; }
        if take { list := list + [gateway]; }
        todo := todo - {k};
      }
      assert gateways - {} == gateways;
    }
  }
}
