// What each message to the gateway directory does, in the terms of the message, and
// what it means for the hosts that are resolved afterwards.
module GatewayAnswers {
  import opened Wrappers
  import opened TextOrder
  import opened Gateways
  import I = Integrity

  // ---------------------------------------------------------------- labels

  predicate AllSpaces(t: Text) { forall i :: 0 <= i < |t| ==> Space(t[i]) }
  predicate AllDots(t: Text) { forall i :: 0 <= i < |t| ==> t[i] == DOT }
  predicate Trimmed(t: Text) { t != [] ==> !Space(t[0]) && !Space(t[|t| - 1]) }

  lemma {:induction false} SplitSpaces(t: Text) returns (pre: Text)
    ensures t == pre + DropSpaces(t) && AllSpaces(pre)
    ensures DropSpaces(t) != [] ==> !Space(DropSpaces(t)[0])
  {
    if t != [] && Space(t[0]) {
      var p := SplitSpaces(t[1..]);
      pre := [t[0]] + p;
    } else {
      pre := [];
    }
  }

  lemma {:induction false} SplitLastSpaces(t: Text) returns (post: Text)
    ensures t == DropLastSpaces(t) + post && AllSpaces(post)
    ensures var r := DropLastSpaces(t); r != [] ==> !Space(r[|r| - 1]) && r[0] == t[0]
  {
    if t != [] && Space(t[|t| - 1]) {
      var p := SplitLastSpaces(t[..|t| - 1]);
      post := p + [t[|t| - 1]];
      assert t == t[..|t| - 1] + [t[|t| - 1]];
    } else {
      post := [];
    }
  }

  lemma {:induction false} SplitLastDots(t: Text) returns (dots: Text)
    ensures t == DropLastDots(t) + dots && AllDots(dots)
    ensures DropLastDots(t) != [] ==> DropLastDots(t)[|DropLastDots(t)| - 1] != DOT
  {
    if t != [] && t[|t| - 1] == DOT {
      var p := SplitLastDots(t[..|t| - 1]);
      dots := p + [DOT];
      assert t == t[..|t| - 1] + [DOT];
    } else {
      dots := [];
    }
  }

  lemma {:induction false} SplitBoth(t: Text) returns (pre: Text, post: Text)
    ensures t == pre + (DropLastSpaces(DropSpaces(t)) + post) && AllSpaces(pre) && AllSpaces(post)
    ensures Trimmed(DropLastSpaces(DropSpaces(t)))
  {
    pre := SplitSpaces(t);
    post := SplitLastSpaces(DropSpaces(t));
  }

  // A label is what is left of the text in lower case between the spaces around it,
  // without the dots at its end.
  lemma {:induction false} LabelText(t: Text) returns (pre: Text, dots: Text, post: Text)
    ensures Lower(t) == pre + ((HostLabel(t) + dots) + post) && AllSpaces(pre) && AllDots(dots) && AllSpaces(post)
    ensures Trimmed(HostLabel(t) + dots)
    ensures HostLabel(t) != [] ==> HostLabel(t)[|HostLabel(t)| - 1] != DOT
  {
    pre, post := SplitBoth(Lower(t));
    dots := SplitLastDots(DropLastSpaces(DropSpaces(Lower(t))));
  }

  // A plain label: up to 255 letters, digits, hyphens and single inner dots.
  predicate PlainLabel(n: Text) {
    0 < |n| <= 255 && AllLabelChars(n) && n[0] != DOT && n[|n| - 1] != DOT &&
    forall i :: 0 <= i < |n| - 1 ==> n[i] != DOT || n[i + 1] != DOT
  }

  // "*." before a plain label.
  predicate StarLabel(n: Text) { 2 < |n| <= 255 && n[0] == STAR && n[1] == DOT && PlainLabel(n[2..]) }

  lemma {:induction false} PlainIsAccepted(n: Text)
    requires n != [] ==> n[|n| - 1] != DOT
    ensures STAR !in n ==>
      (PlainLabel(n) <==> 0 < |n| <= 255 && !DoubleDot(n) && n[0] != DOT && AllLabelChars(n) &&
                          !(exists i :: 0 <= i < |n| && Space(n[i])))
    ensures STAR in n ==> !PlainLabel(n)
  {
    if STAR in n {
      var i :| 0 <= i < |n| && n[i] == STAR;
      assert !LabelChar(n[i]);
    }
  }

  lemma {:induction false} StarIsAccepted(n: Text)
    requires STAR in n && n[|n| - 1] != DOT
    ensures StarLabel(n) <==> |n| <= 255 && !DoubleDot(n) && n[0] != DOT && Wildcard(n) &&
                              !(exists i :: 0 <= i < |n| && Space(n[i]))
  {
    if Wildcard(n) {
      var r := n[2..];
      assert forall i :: 0 <= i < |r| ==> r[i] == n[i + 2];
      assert forall i :: 2 <= i < |n| ==> n[i] == r[i - 2];
      if StarLabel(n) { assert !DoubleDot(n); }
    }
  }

  // A host is accepted exactly if its label is plain; a domain also with "*." before it.
  lemma {:induction false} LabelAcceptedExactly(t: Text, allowWildcard: bool)
    ensures Validated(t, allowWildcard).Label? <==>
      PlainLabel(HostLabel(t)) || (allowWildcard && StarLabel(HostLabel(t)))
    ensures Validated(t, allowWildcard).Label? ==> Validated(t, allowWildcard).text == HostLabel(t)
  {
    var pre, dots, post := LabelText(t);
    var n := HostLabel(t);
    PlainIsAccepted(n);
    if STAR in n {
      StarIsAccepted(n);
    } else {
      assert !StarLabel(n);
    }
  }

  // ---------------------------------------------------------------- domains

  function Given(f: DomainsField): seq<Text> {
    match f
    case NoDomains => []
    case OneDomain(t) => [t]
    case ManyDomains(ts) => ts
    case NotDomains => []
  }

  predicate DomainOk(t: Text) { PlainLabel(HostLabel(t)) || StarLabel(HostLabel(t)) }

  predicate DomainsOk(f: DomainsField) { !f.NotDomains? && forall t :: t in Given(f) ==> DomainOk(t) }

  // What a list of domains is stored as: the labels of those given, sorted, each once.
  ghost predicate StoredAs(ds: seq<Text>, f: DomainsField) {
    Sorted(ds) && forall d :: d in ds <==> exists t :: t in Given(f) && HostLabel(t) == d
  }

  lemma {:induction false} CollectExactly(raw: seq<Text>, out: seq<Text>)
    requires Distinct(out)
    ensures Collect(raw, out).DomainList? <==> forall t :: t in raw ==> DomainOk(t)
    ensures Collect(raw, out).DomainList? ==>
      Distinct(Collect(raw, out).ds) &&
      forall d :: d in Collect(raw, out).ds <==> d in out || exists t :: t in raw && HostLabel(t) == d
    decreases |raw|
  {
    if raw != [] {
      assert raw == [raw[0]] + raw[1..];
      LabelAcceptedExactly(raw[0], true);
      var v := Validated(raw[0], true);
      if v.Label? {
        CollectExactly(raw[1..], if v.text in out then out else out + [v.text]);
      } else {
        assert raw[0] in raw && !DomainOk(raw[0]);
      }
    }
  }

  lemma {:induction false} DomainsExactly(f: DomainsField)
    ensures Normalized(f).DomainList? <==> DomainsOk(f)
    ensures DomainsOk(f) ==> StoredAs(Normalized(f).ds, f)
  {
    if !f.NotDomains? {
      var c := Collect(Given(f), []);
      CollectExactly(Given(f), []);
      if c.DomainList? { SortSorts(c.ds); }
    }
  }

  // ---------------------------------------------------------------- registering

  predicate AmountOk(n: I.Number) { n.Number? && n.r >= 0.0 }

  predicate Registrable(m: RegisterMsg, now: string) {
    m.id.Some? && GatewayId(m.id.value) && m.url.Some? && Url(m.url.value) &&
    m.region.Some? && |m.region.value| <= 64 && I.Token(m.region.value) &&
    m.country.Some? && |m.country.value| <= 16 && I.Token(m.country.value) &&
    AmountOk(m.weight) && AmountOk(m.score) && m.status.Some? && Status(m.status.value) &&
    I.IsoUtc(if m.lastSeen.Some? then m.lastSeen.value else now) && DomainsOk(m.domains)
  }

  // A gateway is registered exactly if all is in order and its id is new; a known id
  // is answered with what is stored.
  lemma RegisterAnswersExactly(d: Directory, m: RegisterMsg, now: string)
    ensures var e, reply := Register(d, m, now).0, Register(d, m, now).1;
      if !Registrable(m, now) then reply.Err? && e == d
      else if m.id.value in d then reply == AlreadyRegistered(d[m.id.value]) && e == d
      else reply.Registered?
  {
    DomainsExactly(m.domains);
  }

  // It is stored under its id as it came, its status in lower case and its domains
  // normalised; no other gateway changes.
  lemma RegisterDoesAsAsked(d: Directory, m: RegisterMsg, now: string)
    requires Register(d, m, now).1.Registered?
    ensures Registrable(m, now) && m.id.value !in d
    ensures var g := Register(d, m, now).1.gateway;
      Register(d, m, now).0 == d[m.id.value := g] &&
      g == Gateway(m.id.value, m.url.value, m.region.value, m.country.value, m.weight.r, m.score.r,
                   I.Lower(m.status.value), if m.lastSeen.Some? then m.lastSeen.value else now, g.domains) &&
      StoredAs(g.domains, m.domains)
  {
    RegisterAnswersExactly(d, m, now);
    DomainsExactly(m.domains);
  }

  // ---------------------------------------------------------------- updating

  predicate Updatable(d: Directory, m: UpdateMsg) {
    m.id.Some? && GatewayId(m.id.value) && m.id.value in d &&
    (m.status.Some? || !m.score.Absent? || !m.weight.Absent? || m.lastSeen.Some? || !m.domains.NoDomains?) &&
    (m.status.Some? ==> Status(m.status.value)) && (m.score.Absent? || AmountOk(m.score)) &&
    (m.weight.Absent? || AmountOk(m.weight)) && (m.lastSeen.Some? ==> I.IsoUtc(m.lastSeen.value)) &&
    DomainsOk(m.domains)
  }

  lemma UpdateAnswersExactly(d: Directory, m: UpdateMsg)
    ensures if Updatable(d, m) then Update(d, m).1.Updated? else Update(d, m).1.Err?
  {
    DomainsExactly(m.domains);
  }

  // Every field that the message brings is written, every other keeps its value, and
  // no other gateway changes.
  lemma UpdateDoesAsAsked(d: Directory, m: UpdateMsg)
    requires Update(d, m).1.Updated?
    ensures Updatable(d, m)
    ensures var was, g := d[m.id.value], Update(d, m).1.gateway;
      Update(d, m).0 == d[m.id.value := g] &&
      g == Gateway(was.id, was.url, was.region, was.country,
                   if m.weight.Number? then m.weight.r else was.capacityWeight,
                   if m.score.Number? then m.score.r else was.score,
                   if m.status.Some? then I.Lower(m.status.value) else was.status,
                   if m.lastSeen.Some? then m.lastSeen.value else was.lastSeen, g.domains) &&
      if m.domains.NoDomains? then g.domains == was.domains else StoredAs(g.domains, m.domains)
  {
    UpdateAnswersExactly(d, m);
    DomainsExactly(m.domains);
  }

  // A host below one of the domains that an update brings resolves afterwards, to a
  // gateway with no lower score, if the gateway is online then.
  lemma {:induction false} UpdatedDomainResolves(d: Directory, m: UpdateMsg, host: Text, t: Text, c: Choice)
    requires Update(d, m).1.Updated? && Update(d, m).1.gateway.status == "online"
    requires DirectoryOk(d) && Validated(host, false).Label? && t in Given(m.domains)
    requires Matches(HostLabel(host), HostLabel(t)) && Resolves(Update(d, m).0, Some(host), c)
    ensures c.Chosen? && c.gateway.score >= Update(d, m).1.gateway.score
  {
    LabelAcceptedExactly(host, false);
    UpdateDoesAsAsked(d, m);
    var e, g := Update(d, m).0, Update(d, m).1.gateway;
    assert HostLabel(t) in g.domains;
    assert Eligible(e, HostLabel(host), m.id.value) && e[m.id.value] == g;
    EligibleIsNotBeaten(e, HostLabel(host), m.id.value, c);
  }

  lemma {:induction false} EligibleIsNotBeaten(d: Directory, h: Text, k: Text, c: Choice)
    requires Eligible(d, h, k) && Best(d, h, c)
    ensures c.Chosen? && c.gateway.score >= d[k].score
  {
  }

  // And a gateway whose new domains do not cover a host is not chosen for it.
  lemma {:induction false} UpdatedAwayIsNotChosen(d: Directory, m: UpdateMsg, host: Text, c: Choice)
    requires Update(d, m).1.Updated? && !m.domains.NoDomains? && DirectoryOk(d) && Validated(host, false).Label?
    requires forall t :: t in Given(m.domains) ==> !Matches(HostLabel(host), HostLabel(t))
    requires Resolves(Update(d, m).0, Some(host), c)
    ensures c.Chosen? ==> c.gateway.id != m.id.value
  {
    UpdateDoesAsAsked(d, m);
    LabelAcceptedExactly(host, false);
    var e, g := Update(d, m).0, Update(d, m).1.gateway;
    forall x | x in g.domains ensures !Matches(HostLabel(host), x) {
      var t :| t in Given(m.domains) && HostLabel(t) == x;
    }
    assert !Eligible(e, HostLabel(host), m.id.value);
  }

  // ---------------------------------------------------------------- choosing

  // The gateway serves the host: it is online and one of its domains covers it.
  predicate Candidate(d: Directory, h: Text, k: Text) {
    k in d && d[k].status == "online" && exists x :: x in d[k].domains && Matches(h, x)
  }

  lemma {:induction false} CandidateIsEligible(d: Directory, h: Text, k: Text)
    ensures Candidate(d, h, k) <==> Eligible(d, h, k)
  {
  }

  // Main result: a host that is in order resolves exactly if some online gateway
  // covers it, and then to the one with the highest score, among equals the highest
  // capacity, among equals the first id, through the first of its domains that covers the host.
  lemma {:induction false} ResolvesToTheBest(d: Directory, host: Text, c: Choice)
    requires DirectoryOk(d) && PlainLabel(HostLabel(host)) && Resolves(d, Some(host), c)
    ensures var h := HostLabel(host);
      (c.Chosen? <==> exists k :: Candidate(d, h, k)) && !c.Refused? &&
      (c.Chosen? ==>
         c.host == h && Candidate(d, h, c.gateway.id) && d[c.gateway.id] == c.gateway &&
         (exists i :: 0 <= i < |c.gateway.domains| && c.gateway.domains[i] == c.matchedDomain &&
                      Matches(h, c.matchedDomain) && forall j :: 0 <= j < i ==> !Matches(h, c.gateway.domains[j])) &&
         forall k :: Candidate(d, h, k) && k != c.gateway.id ==>
           c.gateway.score > d[k].score ||
           (c.gateway.score == d[k].score && c.gateway.capacityWeight > d[k].capacityWeight) ||
           (c.gateway.score == d[k].score && c.gateway.capacityWeight == d[k].capacityWeight &&
            Less(c.gateway.id, k)))
  {
    var h := HostLabel(host);
    LabelAcceptedExactly(host, false);
    forall k ensures Candidate(d, h, k) <==> Eligible(d, h, k) { CandidateIsEligible(d, h, k); }
    if c.Chosen? { FirstMatchIsFirst(h, c.gateway.domains); }
  }

  lemma {:induction false} FirstMatchIsFirst(h: Text, ds: seq<Text>)
    requires FirstMatch(h, ds).Some?
    ensures exists i :: 0 <= i < |ds| && ds[i] == FirstMatch(h, ds).value && Matches(h, ds[i]) &&
                        forall j :: 0 <= j < i ==> !Matches(h, ds[j])
  {
    if !Matches(h, ds[0]) {
      FirstMatchIsFirst(h, ds[1..]);
      var i :| 0 <= i < |ds[1..]| && ds[1..][i] == FirstMatch(h, ds[1..]).value && Matches(h, ds[1..][i]) &&
               forall j :: 0 <= j < i ==> !Matches(h, ds[1..][j]);
      assert ds[i + 1] == ds[1..][i];
      forall j | 0 <= j < i + 1 ensures !Matches(h, ds[j]) {
        if j > 0 { assert ds[j] == ds[1..][j - 1]; }
      }
    }
  }
}
