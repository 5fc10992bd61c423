// The worker's signing text: stableStringify and canonicalDetachedMessage.
module StableStringify {
  import opened JsonText
  import opened TextOrder

  // ---------------------------------------------------------------- stableStringify

  function Keys(fields: seq<Field>): (ks: seq<Text>)
    ensures |ks| == |fields| && forall i :: 0 <= i < |ks| ==> ks[i] == fields[i].key
  {
    if fields == [] then [] else [fields[0].key] + Keys(fields[1..])
  }

  // The value a JavaScript object holds under one of its keys.
  function Lookup(fields: seq<Field>, k: Text): (v: Json)
    requires k in Keys(fields)
    ensures Field(k, v) in fields
  {
    if fields[0].key == k then fields[0].value
    else
      assert Keys(fields) == [fields[0].key] + Keys(fields[1..]);
      Lookup(fields[1..], k)
  }

  // A JSON value of JavaScript: every object has each key once.
  ghost predicate Value(v: Json) {
    WellFormed(Js, v) && Unique(v)
  }

  ghost predicate Unique(v: Json) {
    match v
    case Arr(items) => forall x :: x in items ==> Unique(x)
    case Obj(fields) => Distinct(Keys(fields)) && forall f :: f in fields ==> Unique(f.value)
    case _ => true
  }

  lemma {:induction false} LookupValue(fields: seq<Field>, k: Text)
    requires Value(Obj(fields)) && k in Keys(fields)
    ensures Value(Lookup(fields, k)) && Printable(Js, k)
  {
    var f := Field(k, Lookup(fields, k));
    assert f in fields;
    assert Unique(f.value);
  }

  ghost function StableStringify(v: Json): Text
    requires Value(v)
    decreases v, 0
  {
    match v
    case Null => NULL_TEXT
    case Arr(items) => [LBRACKET] + Join(Elements(items)) + [RBRACKET]
    case Obj(fields) =>
      SortSorts(Keys(fields));
      [LBRACE] + Join(Members(fields, SortKeys(Keys(fields)))) + [RBRACE]
    case Bool(b) => if b then TRUE_TEXT else FALSE_TEXT
    case Num(t) => t
    case Str(t) => Quote(Js, t)
  }

  ghost function Elements(items: seq<Json>): seq<Text>
    requires forall x :: x in items ==> Value(x)
    decreases items, 1
  {
    if items == [] then [] else [StableStringify(items[0])] + Elements(items[1..])
  }

  ghost function Members(fields: seq<Field>, ks: seq<Text>): seq<Text>
    requires Value(Obj(fields)) && forall k :: k in ks ==> k in Keys(fields)
    decreases fields, 1, |ks|
  {
    if ks == [] then []
    else
      LookupValue(fields, ks[0]);
      [Quote(Js, ks[0]) + [COLON] + StableStringify(Lookup(fields, ks[0]))] + Members(fields, ks[1..])
  }

  // ---------------------------------------------------------------- meaning

  // A JSON value without the order of its keys.
  datatype Meaning =
    | MNull
    | MBool(b: bool)
    | MNum(digits: Text)
    | MStr(text: Text)
    | MArr(items: seq<Meaning>)
    | MObj(fields: map<Text, Meaning>)

  function MeaningOf(v: Json): Meaning {
    match v
    case Null => MNull
    case Bool(b) => MBool(b)
    case Num(t) => MNum(t)
    case Str(t) => MStr(t)
    case Arr(items) => MArr(seq(|items|, i requires 0 <= i < |items| => MeaningOf(items[i])))
    case Obj(fields) => MObj(map k | k in Keys(fields) :: MeaningOf(Lookup(fields, k)))
  }

  // The same value with every object's fields in sorted order.
  ghost function Canon(v: Json): Json
    requires Value(v)
    decreases v, 0
  {
    match v
    case Arr(items) => Arr(CanonItems(items))
    case Obj(fields) =>
      SortSorts(Keys(fields));
      Obj(CanonFields(fields, SortKeys(Keys(fields))))
    case _ => v
  }

  ghost function CanonItems(items: seq<Json>): (r: seq<Json>)
    requires forall x :: x in items ==> Value(x)
    ensures |r| == |items| && forall i :: 0 <= i < |r| ==> r[i] == Canon(items[i])
    decreases items, 1
  {
    if items == [] then [] else [Canon(items[0])] + CanonItems(items[1..])
  }

  ghost function CanonField(fields: seq<Field>, k: Text): (r: Field)
    requires Value(Obj(fields)) && k in Keys(fields)
    ensures r.key == k && Value(Lookup(fields, k)) && r.value == Canon(Lookup(fields, k))
    decreases fields, 0
  {
    LookupValue(fields, k);
    Field(k, Canon(Lookup(fields, k)))
  }

  ghost function CanonFields(fields: seq<Field>, ks: seq<Text>): (r: seq<Field>)
    requires Value(Obj(fields)) && forall k :: k in ks ==> k in Keys(fields)
    ensures |r| == |ks| && forall i :: 0 <= i < |r| ==> r[i] == CanonField(fields, ks[i])
    decreases fields, 1, |ks|
  {
    if ks == [] then [] else [CanonField(fields, ks[0])] + CanonFields(fields, ks[1..])
  }

  lemma {:induction false} CanonWellFormed(v: Json)
    requires Value(v)
    ensures WellFormed(Js, Canon(v))
    decreases v, 0
  {
    match v
    case Arr(items) =>
      forall i | 0 <= i < |items| ensures WellFormed(Js, Canon(items[i])) { CanonWellFormed(items[i]); }
    case Obj(fields) =>
      SortSorts(Keys(fields));
      CanonFieldsWellFormed(fields, SortKeys(Keys(fields)));
    case _ =>
  }

  lemma {:induction false} CanonFieldsWellFormed(fields: seq<Field>, ks: seq<Text>)
    requires Value(Obj(fields)) && forall k :: k in ks ==> k in Keys(fields)
    ensures forall f :: f in CanonFields(fields, ks) ==> Printable(Js, f.key) && WellFormed(Js, f.value)
    decreases fields, 1
  {
    forall i | 0 <= i < |ks| ensures Printable(Js, ks[i]) && WellFormed(Js, Canon(Lookup(fields, ks[i]))) {
      LookupValue(fields, ks[i]);
      CanonWellFormed(Lookup(fields, ks[i]));
    }
  }

  // stableStringify prints the sorted value.
  lemma {:induction false} StringifyPrintsCanon(v: Json)
    requires Value(v)
    ensures WellFormed(Js, Canon(v)) && StableStringify(v) == Print(Js, Canon(v))
    decreases v, 0
  {
    CanonWellFormed(v);
    match v
    case Arr(items) => ElementsPrint(items);
    case Obj(fields) =>
      SortSorts(Keys(fields));
      MembersPrint(fields, SortKeys(Keys(fields)));
    case _ =>
  }

  lemma {:induction false} ElementsPrint(items: seq<Json>)
    requires forall x :: x in items ==> Value(x)
    ensures (forall x :: x in CanonItems(items) ==> WellFormed(Js, x)) &&
            Join(Elements(items)) == PrintItems(Js, CanonItems(items))
    decreases items, 1
  {
    forall i | 0 <= i < |items| ensures WellFormed(Js, Canon(items[i])) { CanonWellFormed(items[i]); }
    if items != [] {
      StringifyPrintsCanon(items[0]);
      ElementsPrint(items[1..]);
      assert CanonItems(items)[1..] == CanonItems(items[1..]);
      assert Elements(items)[1..] == Elements(items[1..]);
    }
  }

  lemma {:induction false} MembersPrint(fields: seq<Field>, ks: seq<Text>)
    requires Value(Obj(fields)) && forall k :: k in ks ==> k in Keys(fields)
    ensures var c := CanonFields(fields, ks);
            (forall f :: f in c ==> Printable(Js, f.key) && WellFormed(Js, f.value)) &&
            Join(Members(fields, ks)) == PrintFields(Js, c)
    decreases fields, 1, |ks|
  {
    CanonFieldsWellFormed(fields, ks);
    if ks != [] {
      LookupValue(fields, ks[0]);
      StringifyPrintsCanon(Lookup(fields, ks[0]));
      MembersPrint(fields, ks[1..]);
      FirstMemberPrints(fields, ks);
    }
  }

  lemma {:induction false} FirstMemberPrints(fields: seq<Field>, ks: seq<Text>)
    requires Value(Obj(fields)) && ks != [] && forall k :: k in ks ==> k in Keys(fields)
    requires Value(Lookup(fields, ks[0]))
    requires StableStringify(Lookup(fields, ks[0])) == Print(Js, Canon(Lookup(fields, ks[0])))
    requires Join(Members(fields, ks[1..])) == PrintFields(Js, CanonFields(fields, ks[1..]))
    ensures Join(Members(fields, ks)) == PrintFields(Js, CanonFields(fields, ks))
  {
    JoinCons(Members(fields, ks)[0], Members(fields, ks[1..]));
    PrintFieldsCons(CanonField(fields, ks[0]), CanonFields(fields, ks[1..]));
  }

  lemma {:induction false} JoinCons(part: Text, more: seq<Text>)
    ensures Join([part] + more) == part + if more == [] then [] else [COMMA] + Join(more)
  {
    assert ([part] + more)[1..] == more;
  }

  lemma {:induction false} PrintFieldsCons(f: Field, more: seq<Field>)
    ensures PrintFields(Js, [f] + more) ==
            Quote(Js, f.key) + [COLON] + Print(Js, f.value) + if more == [] then [] else [COMMA] + PrintFields(Js, more)
  {
    assert ([f] + more)[1..] == more;
  }

  // Equal canonical values are exactly the values with equal meanings.
  lemma {:induction false} CanonIsMeaning(v: Json, w: Json)
    requires Value(v) && Value(w)
    ensures Canon(v) == Canon(w) <==> MeaningOf(v) == MeaningOf(w)
    decreases v
  {
    match (v, w)
    case (Arr(xs), Arr(ys)) =>
      if |xs| == |ys| {
        forall i | 0 <= i < |xs| ensures Canon(xs[i]) == Canon(ys[i]) <==> MeaningOf(xs[i]) == MeaningOf(ys[i]) {
          CanonIsMeaning(xs[i], ys[i]);
        }
        ArraysAgree(xs, ys);
      } else {
        ArraysDiffer(xs, ys);
      }
    case (Obj(fs), Obj(gs)) =>
      forall k | k in Keys(fs) && k in Keys(gs) ensures SameAt(fs, gs, k) {
        LookupValue(fs, k);
        LookupValue(gs, k);
        CanonIsMeaning(Lookup(fs, k), Lookup(gs, k));
      }
      ObjectsAgree(fs, gs);
    case _ =>
  }

  lemma {:induction false} ArraysDiffer(xs: seq<Json>, ys: seq<Json>)
    requires |xs| != |ys| && Value(Arr(xs)) && Value(Arr(ys))
    ensures Canon(Arr(xs)) != Canon(Arr(ys)) && MeaningOf(Arr(xs)) != MeaningOf(Arr(ys))
  {
    assert |CanonItems(xs)| != |CanonItems(ys)|;
    assert |MeaningOf(Arr(xs)).items| == |xs| && |MeaningOf(Arr(ys)).items| == |ys|;
  }

  lemma {:induction false} ArraysAgree(xs: seq<Json>, ys: seq<Json>)
    requires |xs| == |ys| && Value(Arr(xs)) && Value(Arr(ys))
    requires forall i :: 0 <= i < |xs| ==> (Canon(xs[i]) == Canon(ys[i]) <==> MeaningOf(xs[i]) == MeaningOf(ys[i]))
    ensures Canon(Arr(xs)) == Canon(Arr(ys)) <==> MeaningOf(Arr(xs)) == MeaningOf(Arr(ys))
  {
    var c, d := CanonItems(xs), CanonItems(ys);
    var m, n := MeaningOf(Arr(xs)).items, MeaningOf(Arr(ys)).items;
    if m == n {
      forall i | 0 <= i < |xs| ensures c[i] == d[i] { assert m[i] == n[i]; }
    }
    if c == d {
      forall i | 0 <= i < |xs| ensures m[i] == n[i] { assert c[i] == d[i]; }
    }
  }

  // Under one key two objects hold values for which the claim is known.
  ghost predicate SameAt(fs: seq<Field>, gs: seq<Field>, k: Text)
    requires k in Keys(fs) && k in Keys(gs)
  {
    Value(Lookup(fs, k)) && Value(Lookup(gs, k)) &&
    (Canon(Lookup(fs, k)) == Canon(Lookup(gs, k)) <==> MeaningOf(Lookup(fs, k)) == MeaningOf(Lookup(gs, k)))
  }

  lemma {:induction false} ObjectsAgree(fs: seq<Field>, gs: seq<Field>)
    requires Value(Obj(fs)) && Value(Obj(gs))
    requires forall k :: k in Keys(fs) && k in Keys(gs) ==> SameAt(fs, gs, k)
    ensures Canon(Obj(fs)) == Canon(Obj(gs)) <==> MeaningOf(Obj(fs)) == MeaningOf(Obj(gs))
  {
    if MeaningOf(Obj(fs)) == MeaningOf(Obj(gs)) { SameMeaningSameCanon(fs, gs); }
    if Canon(Obj(fs)) == Canon(Obj(gs)) { SameCanonSameMeaning(fs, gs); }
  }

  lemma {:induction false} SameMeaningSameCanon(fs: seq<Field>, gs: seq<Field>)
    requires Value(Obj(fs)) && Value(Obj(gs)) && MeaningOf(Obj(fs)) == MeaningOf(Obj(gs))
    requires forall k :: k in Keys(fs) && k in Keys(gs) ==> SameAt(fs, gs, k)
    ensures Canon(Obj(fs)) == Canon(Obj(gs))
  {
    MeaningFieldsEqual(fs, gs, MeaningOf(Obj(fs)).fields);
    SameKeysSameSort(fs, gs);
    SortSorts(Keys(fs));
    forall k | k in SortKeys(Keys(fs))
      ensures k in Keys(fs) && k in Keys(gs) && Value(Lookup(fs, k)) && Value(Lookup(gs, k)) &&
              Canon(Lookup(fs, k)) == Canon(Lookup(gs, k))
    {
      assert SameAt(fs, gs, k);
    }
    CanonFieldsEqual(fs, gs, SortKeys(Keys(fs)));
  }

  lemma {:induction false} SameCanonSameMeaning(fs: seq<Field>, gs: seq<Field>)
    requires Value(Obj(fs)) && Value(Obj(gs)) && Canon(Obj(fs)) == Canon(Obj(gs))
    requires forall k :: k in Keys(fs) && k in Keys(gs) ==> SameAt(fs, gs, k)
    ensures MeaningOf(Obj(fs)) == MeaningOf(Obj(gs))
  {
    SortSorts(Keys(fs));
    SortSorts(Keys(gs));
    CanonFieldsInverse(fs, gs, SortKeys(Keys(fs)), SortKeys(Keys(gs)));
    forall k ensures k in Keys(fs) <==> k in Keys(gs) { assert k in SortKeys(Keys(fs)) <==> k in Keys(fs); }
    forall k | k in Keys(fs) ensures MeaningOf(Lookup(fs, k)) == MeaningOf(Lookup(gs, k)) {
      assert k in SortKeys(Keys(fs)) && SameAt(fs, gs, k);
    }
    MeaningFieldsSame(fs, gs);
  }

  lemma {:induction false} MeaningFieldsSame(fs: seq<Field>, gs: seq<Field>)
    requires forall k :: k in Keys(fs) <==> k in Keys(gs)
    requires forall k :: k in Keys(fs) ==> MeaningOf(Lookup(fs, k)) == MeaningOf(Lookup(gs, k))
    ensures MeaningOf(Obj(fs)) == MeaningOf(Obj(gs))
  {
    var m, n := MeaningOf(Obj(fs)).fields, MeaningOf(Obj(gs)).fields;
    assert m.Keys == n.Keys;
    assert m == n;
  }

  lemma {:induction false} SameKeysSameSort(fs: seq<Field>, gs: seq<Field>)
    requires Distinct(Keys(fs)) && Distinct(Keys(gs)) && forall k :: k in Keys(fs) <==> k in Keys(gs)
    ensures SortKeys(Keys(fs)) == SortKeys(Keys(gs))
  {
    SortSorts(Keys(fs));
    SortSorts(Keys(gs));
    SortedUnique(SortKeys(Keys(fs)), SortKeys(Keys(gs)));
  }

  lemma {:induction false} MeaningFieldsEqual(fs: seq<Field>, gs: seq<Field>, m: map<Text, Meaning>)
    requires m == MeaningOf(Obj(fs)).fields == MeaningOf(Obj(gs)).fields
    ensures forall k :: k in Keys(fs) <==> k in Keys(gs)
    ensures forall k :: k in Keys(fs) ==> MeaningOf(Lookup(fs, k)) == MeaningOf(Lookup(gs, k))
  {
    forall k ensures k in Keys(fs) <==> k in Keys(gs) { assert k in m <==> k in Keys(fs); }
    forall k | k in Keys(fs) ensures MeaningOf(Lookup(fs, k)) == MeaningOf(Lookup(gs, k)) {
      assert m[k] == MeaningOf(Lookup(fs, k));
      assert m[k] == MeaningOf(Lookup(gs, k));
    }
  }

  lemma {:induction false} CanonFieldsEqual(fs: seq<Field>, gs: seq<Field>, ks: seq<Text>)
    requires Value(Obj(fs)) && Value(Obj(gs))
    requires forall k :: k in ks ==> k in Keys(fs) && k in Keys(gs)
    requires forall k :: k in ks ==>
      Value(Lookup(fs, k)) && Value(Lookup(gs, k)) && Canon(Lookup(fs, k)) == Canon(Lookup(gs, k))
    ensures CanonFields(fs, ks) == CanonFields(gs, ks)
  {
    forall i | 0 <= i < |ks| ensures CanonFields(fs, ks)[i] == CanonFields(gs, ks)[i] { assert ks[i] in ks; }
  }

  lemma {:induction false} CanonFieldsInverse(fs: seq<Field>, gs: seq<Field>, ks: seq<Text>, ls: seq<Text>)
    requires Value(Obj(fs)) && Value(Obj(gs))
    requires (forall k :: k in ks ==> k in Keys(fs)) && (forall k :: k in ls ==> k in Keys(gs))
    requires CanonFields(fs, ks) == CanonFields(gs, ls)
    ensures ks == ls
    ensures forall k :: k in ks ==>
      Value(Lookup(fs, k)) && Value(Lookup(gs, k)) && Canon(Lookup(fs, k)) == Canon(Lookup(gs, k))
  {
    var c, d := CanonFields(fs, ks), CanonFields(gs, ls);
    forall i | 0 <= i < |ks| ensures ks[i] == ls[i] { assert c[i] == d[i]; }
    forall k | k in ks
      ensures Value(Lookup(fs, k)) && Value(Lookup(gs, k)) && Canon(Lookup(fs, k)) == Canon(Lookup(gs, k))
    {
      var i :| 0 <= i < |ks| && ks[i] == k;
      assert c[i] == d[i];
    }
  }

  // ---------------------------------------------------------------- main results

  // Two values have the same text exactly when they are equal up to the order
  // of keys, and the text says where it ends: nothing appended to it, as long
  // as it does not continue a number, can make it read as another value.
  lemma {:induction false} StableStringifyExact(v: Json, w: Json, x: Text, y: Text)
    requires Value(v) && Value(w) && Delimited(x) && Delimited(y)
    ensures StableStringify(v) + x == StableStringify(w) + y <==> MeaningOf(v) == MeaningOf(w) && x == y
  {
    StringifyPrintsCanon(v);
    StringifyPrintsCanon(w);
    PrintRoundTrip(Js, Canon(v), x);
    PrintRoundTrip(Js, Canon(w), y);
    CanonIsMeaning(v, w);
  }

  // A JSON parser reads the signing text back as a value of the same meaning.
  lemma {:induction false} StableStringifyParses(v: Json, x: Text)
    requires Value(v) && Delimited(x)
    ensures ParseValue(StableStringify(v) + x) == Ok(Canon(v), x)
  {
    StringifyPrintsCanon(v);
    PrintRoundTrip(Js, Canon(v), x);
  }

  // A command as /sign receives it; an absent or falsy field is the empty text.
  datatype Command = Command(
    action: Text, actionTag: Text,
    tenant: Text, tenantTag: Text, tenantIdTag: Text,
    actor: Text, actorTag: Text,
    ts: Text, timestamp: Text, timestampTag: Text,
    nonce: Text, nonceTag: Text, xNonceTag: Text,
    role: Text, roleTag: Text, actorRoleTag: Text,
    payload: Json, payloadTag: Json,
    requestId: Text, requestIdTag: Text)

  function Or(a: Text, b: Text): Text { if a != [] then a else b }

  predicate Truthy(v: Json) {
    match v
    case Null => false
    case Bool(b) => b
    case Num(t) => t != [48]
    case Str(t) => t != []
    case Arr(_) => true
    case Obj(_) => true
  }

  // The six plain fields that are signed, in their order.
  function SignedFields(c: Command): (r: seq<Text>)
    ensures |r| == 6
  {
    [Or(c.action, c.actionTag),
     Or(c.tenant, Or(c.tenantTag, c.tenantIdTag)),
     Or(c.actor, c.actorTag),
     Or(c.ts, Or(c.timestamp, c.timestampTag)),
     Or(c.nonce, Or(c.nonceTag, c.xNonceTag)),
     Or(c.role, Or(c.roleTag, c.actorRoleTag))]
  }

  function SignedPayload(c: Command): Json {
    if Truthy(c.payload) then c.payload else if Truthy(c.payloadTag) then c.payloadTag else Obj([])
  }

  function SignedRequestId(c: Command): Text { Or(c.requestId, c.requestIdTag) }

  ghost predicate ValidCommand(c: Command) { Value(c.payload) && Value(c.payloadTag) }

  function BarJoin(parts: seq<Text>): Text {
    if parts == [] then []
    else if |parts| == 1 then parts[0]
    else parts[0] + [BAR] + BarJoin(parts[1..])
  }

  ghost function CanonicalDetachedMessage(c: Command): Text
    requires ValidCommand(c)
  {
    BarJoin(SignedFields(c) + [StableStringify(SignedPayload(c)), SignedRequestId(c)])
  }

  predicate BarFree(t: Text) { BAR !in t }

  lemma {:induction false} SplitAtBar(a: Text, b: Text, x: Text, y: Text)
    requires BarFree(a) && BarFree(b) && a + [BAR] + x == b + [BAR] + y
    ensures a == b && x == y
  {
    var s, t := a + [BAR] + x, b + [BAR] + y;
    assert |a| > 0 ==> s[0] == a[0] && a[0] in a;
    assert |b| > 0 ==> t[0] == b[0] && b[0] in b;
    if a == [] && b == [] {
      assert s[1..] == x && t[1..] == y;
    } else if a == [] || b == [] {
      assert false;
    } else {
      assert s[0] == a[0] && t[0] == b[0];
      assert s[1..] == a[1..] + [BAR] + x && t[1..] == b[1..] + [BAR] + y;
      assert a == [a[0]] + a[1..] && b == [b[0]] + b[1..];
      SplitAtBar(a[1..], b[1..], x, y);
    }
  }

  lemma {:induction false} SplitPrefix(f: seq<Text>, g: seq<Text>, x: seq<Text>, y: seq<Text>)
    requires |f| == |g| && |x| == |y| == 2
    requires forall i :: 0 <= i < |f| ==> BarFree(f[i]) && BarFree(g[i])
    requires BarJoin(f + x) == BarJoin(g + y)
    ensures f == g && BarJoin(x) == BarJoin(y)
  {
    if f == [] {
      assert f + x == x && g + y == y;
    } else {
      assert (f + x)[1..] == f[1..] + x && (g + y)[1..] == g[1..] + y;
      SplitAtBar(f[0], g[0], BarJoin(f[1..] + x), BarJoin(g[1..] + y));
      SplitPrefix(f[1..], g[1..], x, y);
      assert f == [f[0]] + f[1..] && g == [g[0]] + g[1..];
    }
  }

  lemma EmptyObjectIsValue()
    ensures Value(Obj([]))
  {
  }

  lemma {:induction false} BarJoinPair(a: Text, b: Text)
    ensures BarJoin([a, b]) == a + ([BAR] + b)
  {
    assert [a, b][1..] == [b] && BarJoin([b]) == b;
  }

  // The payload says where it ends, so the two last parts can be told apart.
  lemma {:induction false} TailExact(p: Json, q: Json, r: Text, s: Text)
    requires Value(p) && Value(q)
    ensures BarJoin([StableStringify(p), r]) == BarJoin([StableStringify(q), s]) <==>
            MeaningOf(p) == MeaningOf(q) && r == s
  {
    BarJoinPair(StableStringify(p), r);
    BarJoinPair(StableStringify(q), s);
    StableStringifyExact(p, q, [BAR] + r, [BAR] + s);
    assert ([BAR] + r)[1..] == r && ([BAR] + s)[1..] == s;
  }

  lemma {:induction false} PartsExact(f: seq<Text>, g: seq<Text>, p: Json, q: Json, r: Text, s: Text)
    requires |f| == |g| && Value(p) && Value(q)
    requires forall i :: 0 <= i < |f| ==> BarFree(f[i]) && BarFree(g[i])
    ensures BarJoin(f + [StableStringify(p), r]) == BarJoin(g + [StableStringify(q), s]) <==>
            f == g && MeaningOf(p) == MeaningOf(q) && r == s
  {
    var x, y := [StableStringify(p), r], [StableStringify(q), s];
    TailExact(p, q, r, s);
    if BarJoin(f + x) == BarJoin(g + y) {
      SplitPrefix(f, g, x, y);
    } else if f == g && r == s {
      SameMeaningSameText(p, q);
    }
  }

  lemma {:induction false} SameMeaningSameText(p: Json, q: Json)
    requires Value(p) && Value(q)
    ensures MeaningOf(p) == MeaningOf(q) ==> StableStringify(p) == StableStringify(q)
  {
    StableStringifyExact(p, q, [], []);
    assert StableStringify(p) + [] == StableStringify(p) && StableStringify(q) + [] == StableStringify(q);
  }

  // When no plain field contains '|', commands have equal signing texts exactly
  // when they sign the same thing, whatever '|' the payload or request id hold.
  lemma DetachedMessageExact(c: Command, d: Command)
    requires ValidCommand(c) && ValidCommand(d)
    requires forall i :: 0 <= i < 6 ==> BarFree(SignedFields(c)[i]) && BarFree(SignedFields(d)[i])
    ensures CanonicalDetachedMessage(c) == CanonicalDetachedMessage(d) <==>
            SignedFields(c) == SignedFields(d) &&
            MeaningOf(SignedPayload(c)) == MeaningOf(SignedPayload(d)) &&
            SignedRequestId(c) == SignedRequestId(d)
  {
    EmptyObjectIsValue();
    PartsExact(SignedFields(c), SignedFields(d), SignedPayload(c), SignedPayload(d), SignedRequestId(c),
               SignedRequestId(d));
  }

  // ---------------------------------------------------------------- the text in the command's own fields

  lemma {:induction false} EightParts(c: Command, p: Text)
    requires ValidCommand(c) && Value(SignedPayload(c)) && StableStringify(SignedPayload(c)) == p
    ensures var f := SignedFields(c);
            CanonicalDetachedMessage(c) == BarJoin([f[0], f[1], f[2], f[3], f[4], f[5], p, SignedRequestId(c)])
  {
    var f := SignedFields(c);
    assert f + [p, SignedRequestId(c)] == [f[0], f[1], f[2], f[3], f[4], f[5], p, SignedRequestId(c)];
  }

  lemma {:induction false} BarJoin8(a: Text, b: Text, c: Text, d: Text, e: Text, f: Text, g: Text, h: Text)
    ensures BarJoin([a, b, c, d, e, f, g, h]) ==
            a + [BAR] + (b + [BAR] + (c + [BAR] + (d + [BAR] + (e + [BAR] + (f + [BAR] + (g + [BAR] + h))))))
  {
    BarJoinCons(g, [h]);
    BarJoinCons(f, [g, h]);
    BarJoinCons(e, [f, g, h]);
    BarJoinCons(d, [e, f, g, h]);
    BarJoinCons(c, [d, e, f, g, h]);
    BarJoinCons(b, [c, d, e, f, g, h]);
    BarJoinCons(a, [b, c, d, e, f, g, h]);
  }

  lemma {:induction false} BarJoinCons(a: Text, parts: seq<Text>)
    requires parts != []
    ensures BarJoin([a] + parts) == a + [BAR] + BarJoin(parts)
  {
    assert ([a] + parts)[1..] == parts;
  }

  // x is the first of the spellings that is not empty, or empty if they all are.
  predicate Reads(x: Text, spellings: seq<Text>) {
    (exists i :: 0 <= i < |spellings| && spellings[i] == x && x != [] &&
                 forall j :: 0 <= j < i ==> spellings[j] == []) ||
    (x == [] && forall j :: 0 <= j < |spellings| ==> spellings[j] == [])
  }

  // What JavaScript takes for no payload: null, false, zero and the empty text.
  predicate Falsy(v: Json) { v == Null || v == Bool(false) || v == Num([48]) || v == Str([]) }

  predicate ReadsPayload(p: Json, c: Command) {
    (!Falsy(c.payload) && p == c.payload) ||
    (Falsy(c.payload) && !Falsy(c.payloadTag) && p == c.payloadTag) ||
    (Falsy(c.payload) && Falsy(c.payloadTag) && p == Obj([]))
  }

  lemma {:induction false} ReadsTwo(x: Text, a: Text, b: Text)
    requires Reads(x, [a, b])
    ensures x == Or(a, b)
  {
    assert [a, b][0] == a && [a, b][1] == b;
  }

  lemma {:induction false} ReadsThree(x: Text, a: Text, b: Text, c: Text)
    requires Reads(x, [a, b, c])
    ensures x == Or(a, Or(b, c))
  {
    assert [a, b, c][0] == a && [a, b, c][1] == b && [a, b, c][2] == c;
  }

  lemma {:induction false} FieldsRead(c: Command, action: Text, tenant: Text, actor: Text, ts: Text, nonce: Text,
      role: Text)
    requires Reads(action, [c.action, c.actionTag]) && Reads(tenant, [c.tenant, c.tenantTag, c.tenantIdTag])
    requires Reads(actor, [c.actor, c.actorTag]) && Reads(ts, [c.ts, c.timestamp, c.timestampTag])
    requires Reads(nonce, [c.nonce, c.nonceTag, c.xNonceTag]) && Reads(role, [c.role, c.roleTag, c.actorRoleTag])
    ensures SignedFields(c) == [action, tenant, actor, ts, nonce, role]
  {
    ReadsTwo(action, c.action, c.actionTag);
    ReadsThree(tenant, c.tenant, c.tenantTag, c.tenantIdTag);
    ReadsTwo(actor, c.actor, c.actorTag);
    ReadsThree(ts, c.ts, c.timestamp, c.timestampTag);
    ReadsThree(nonce, c.nonce, c.nonceTag, c.xNonceTag);
    ReadsThree(role, c.role, c.roleTag, c.actorRoleTag);
  }

  lemma {:induction false} PayloadRead(c: Command, payload: Json)
    requires ValidCommand(c) && ReadsPayload(payload, c)
    ensures Value(payload) && payload == SignedPayload(c)
  {
    EmptyObjectIsValue();
  }

  lemma {:induction false} EightPartsText(c: Command, f: seq<Text>, p: Text)
    requires ValidCommand(c) && Value(SignedPayload(c)) && StableStringify(SignedPayload(c)) == p
    requires f == SignedFields(c)
    ensures CanonicalDetachedMessage(c) ==
            f[0] + [BAR] + (f[1] + [BAR] + (f[2] + [BAR] + (f[3] + [BAR] + (f[4] + [BAR] + (f[5] + [BAR] +
              (p + [BAR] + SignedRequestId(c)))))))
  {
    EightParts(c, p);
    BarJoin8(f[0], f[1], f[2], f[3], f[4], f[5], p, SignedRequestId(c));
  }

  // Main result: the text that is signed, in the command's own fields.  Each of the
  // eight parts is its field under the first spelling that is not empty.
  lemma {:induction false} DetachedMessageText(c: Command, action: Text, tenant: Text, actor: Text, ts: Text,
      nonce: Text, role: Text, payload: Json, requestId: Text)
    requires ValidCommand(c)
    requires Reads(action, [c.action, c.actionTag]) && Reads(tenant, [c.tenant, c.tenantTag, c.tenantIdTag])
    requires Reads(actor, [c.actor, c.actorTag]) && Reads(ts, [c.ts, c.timestamp, c.timestampTag])
    requires Reads(nonce, [c.nonce, c.nonceTag, c.xNonceTag]) && Reads(role, [c.role, c.roleTag, c.actorRoleTag])
    requires ReadsPayload(payload, c) && Reads(requestId, [c.requestId, c.requestIdTag])
    ensures Value(payload)
    ensures CanonicalDetachedMessage(c) ==
            action + [BAR] + (tenant + [BAR] + (actor + [BAR] + (ts + [BAR] + (nonce + [BAR] + (role + [BAR] +
              (StableStringify(payload) + [BAR] + requestId))))))
  {
    FieldsRead(c, action, tenant, actor, ts, nonce, role);
    ReadsTwo(requestId, c.requestId, c.requestIdTag);
    PayloadRead(c, payload);
    EightPartsText(c, [action, tenant, actor, ts, nonce, role], StableStringify(payload));
  }

  // In particular, a command in its first spellings is signed field by field.
  lemma {:induction false} FullCommandText(c: Command)
    requires ValidCommand(c) && c.payload.Obj?
    requires c.action != [] && c.tenant != [] && c.actor != [] && c.ts != [] && c.nonce != [] && c.role != []
    requires c.requestId != []
    ensures CanonicalDetachedMessage(c) ==
            c.action + [BAR] + (c.tenant + [BAR] + (c.actor + [BAR] + (c.ts + [BAR] + (c.nonce + [BAR] +
              (c.role + [BAR] + (StableStringify(c.payload) + [BAR] + c.requestId))))))
  {
    assert [c.action, c.actionTag][0] == c.action && [c.tenant, c.tenantTag, c.tenantIdTag][0] == c.tenant;
    assert [c.actor, c.actorTag][0] == c.actor && [c.ts, c.timestamp, c.timestampTag][0] == c.ts;
    assert [c.nonce, c.nonceTag, c.xNonceTag][0] == c.nonce && [c.role, c.roleTag, c.actorRoleTag][0] == c.role;
    assert [c.requestId, c.requestIdTag][0] == c.requestId;
    DetachedMessageText(c, c.action, c.tenant, c.actor, c.ts, c.nonce, c.role, c.payload, c.requestId);
  }

  // ---------------------------------------------------------------- when two commands share one text

  function Plain(action: Text, tenant: Text, role: Text, requestId: Text): Command {
    Command(action, [], tenant, [], [], [], [], [], [], [], [], [], [], role, [], [], Null, Null, requestId, [])
  }

  lemma {:induction false} PlainMessage(action: Text, tenant: Text, role: Text, requestId: Text)
    ensures var c := Plain(action, tenant, role, requestId);
            ValidCommand(c) && SignedFields(c) == [action, tenant, [], [], [], role]
    ensures CanonicalDetachedMessage(Plain(action, tenant, role, requestId)) ==
            action + [BAR] + tenant + [BAR, BAR, BAR, BAR] + role + [BAR, LBRACE, RBRACE, BAR] + requestId
  {
    var c := Plain(action, tenant, role, requestId);
    EmptyObjectIsValue();
    assert StableStringify(Obj([])) == [LBRACE, RBRACE];
    EightParts(c, [LBRACE, RBRACE]);
    BarJoin8(action, tenant, [], [], [], role, [LBRACE, RBRACE], requestId);
  }

  // The condition is needed: a '|' inside a plain field lets two different
  // commands share one signing text.
  lemma BarCollision() returns (c: Command, d: Command)
    ensures ValidCommand(c) && ValidCommand(d) && SignedFields(c) != SignedFields(d)
    ensures !BarFree(SignedFields(c)[0]) && forall i :: 0 <= i < 6 ==> BarFree(SignedFields(d)[i])
    ensures CanonicalDetachedMessage(c) == CanonicalDetachedMessage(d)
  {
    c := Plain([65, BAR, 66], [], [LBRACE, RBRACE], []);
    d := Plain([65], [66], [], [LBRACE, RBRACE, BAR]);
    PlainMessage([65, BAR, 66], [], [LBRACE, RBRACE], []);
    PlainMessage([65], [66], [], [LBRACE, RBRACE, BAR]);
  }
}
