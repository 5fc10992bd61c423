// The registry's sites and their runtime pointers: normalising a pointer that comes
// in a message or from storage, merging it into what a site has, and repairing the
// stored state on load.
module RuntimePointers {
  import opened Wrappers
  import I = Integrity

  // The fields of a pointer, in the order in which they are checked.
  datatype Field =
    | ProcessId | SiteProcessId | CatalogProcessId | AccessProcessId | WriteProcessId | IngestProcessId
    | RegistryProcessId | WorkerId | WorkerUrl | ModuleId | Scheduler | TemplateTxId | ManifestTxId | TemplateSha256
    | TemplateVariant | UpdatedAt

  const INPUT_FIELDS: seq<Field> :=
    [ProcessId, SiteProcessId, CatalogProcessId, AccessProcessId, WriteProcessId, IngestProcessId, RegistryProcessId,
     WorkerId, WorkerUrl, ModuleId, Scheduler, TemplateTxId, ManifestTxId, TemplateSha256, TemplateVariant]

  function Fields(stored: bool): seq<Field> { if stored then INPUT_FIELDS + [UpdatedAt] else INPUT_FIELDS }

  // In how many spellings a field may come; the first is the canonical one.
  function Spellings(f: Field): nat {
    match f
    case ProcessId | ModuleId | TemplateTxId | ManifestTxId | TemplateSha256 | TemplateVariant | UpdatedAt => 4
    case Scheduler => 5
    case WorkerUrl => 2
    case _ => 3
  }

  // A key of a table: a spelling of a field, or something else.
  datatype Key = Key(field: Field, spelling: nat) | Foreign(name: string)

  datatype Value = Str(s: string) | NotAString

  datatype Raw = Table(t: map<Key, Value>) | NotATable

  type Pointer = map<Field, string>

  // ---------------------------------------------------------------- checking values

  predicate Alnum(c: char) { 'a' <= c <= 'z' || 'A' <= c <= 'Z' || '0' <= c <= '9' }

  predicate IdToken(s: string) { 0 < |s| <= 128 && forall i :: 0 <= i < |s| ==>
      Alnum(s[i]) || s[i] == '_' || s[i] == '-' }

  predicate UrlChar(c: char) {
    Alnum(c) || c in {'.', '_', '~', ':', '/', '?', '#', '[', ']', '@', '!', '$', '&', '\'', '(', ')', '*', '+', ',',
        ';', '=', '-'}
  }

  predicate WorkerAddress(s: string) {
    |s| <= 512 &&
    (("http://" <= s && |s| > 7 && forall i :: 7 <= i < |s| ==> UrlChar(s[i])) ||
     ("https://" <= s && |s| > 8 && forall i :: 8 <= i < |s| ==> UrlChar(s[i])))
  }

  predicate Variant(s: string) {
    0 < |s| <= 64 && Alnum(s[0]) &&
    forall i :: 1 <= i < |s| ==> Alnum(s[i]) || s[i] == '.' || s[i] == '_' || s[i] == '/' || s[i] == '-'
  }

  predicate HexDigit(c: char) { 'a' <= c <= 'f' || '0' <= c <= '9' }

  predicate Sha256(s: string) { |s| == 64 && forall i :: 0 <= i < 64 ==> HexDigit(s[i]) }

  // normalize_sha256_hex: lower case, without "sha256-" and then without "0x".
  function ShaText(s: string): string {
    var a := I.Lower(s);
    var b := if "sha256-" <= a then a[7..] else a;
    if "0x" <= b then b[2..] else b
  }

  // The canonical text of a field's value, if the value is acceptable.
  function Checked(f: Field, v: Value): Option<string> {
    if v.NotAString? then None
    else
      match f
      case TemplateSha256 => if |v.s| <= 80 && Sha256(ShaText(v.s)) then Some(ShaText(v.s)) else None
      case WorkerUrl => if WorkerAddress(v.s) then Some(v.s) else None
      case TemplateVariant => if Variant(v.s) then Some(v.s) else None
      case UpdatedAt => if I.IsoUtc(v.s) then Some(v.s) else None
      case _ => if IdToken(v.s) then Some(v.s) else None
  }

  predicate Canonical(f: Field, s: string) { Checked(f, Str(s)) == Some(s) }

  // A digest in hex has neither of the prefixes left to lose.
  lemma ShaIsStable(s: string)
    requires Sha256(s)
    ensures ShaText(s) == s
  {
    assert I.Lower(s) == s;
    var p, q := "sha256-", "0x";
    assert p[0] == 's' && q[1] == 'x';
    assert HexDigit(s[0]) && HexDigit(s[1]);
    assert !(p <= s) && !(q <= s);
  }

  lemma CheckedIsStable(f: Field, v: Value)
    requires Checked(f, v).Some?
    ensures Canonical(f, Checked(f, v).value)
  {
    if f == TemplateSha256 { ShaIsStable(ShaText(v.s)); }
  }

  // ---------------------------------------------------------------- normalising

  function FirstPresent(t: map<Key, Value>, f: Field, from: nat): Option<Value>
    decreases Spellings(f) - from
  {
    if from >= Spellings(f) then None
    else if Key(f, from) in t then Some(t[Key(f, from)])
    else FirstPresent(t, f, from + 1)
  }

  predicate Process(f: Field) {
    f.ProcessId? || f.SiteProcessId? || f.CatalogProcessId? || f.AccessProcessId? || f.WriteProcessId? ||
    f.IngestProcessId? || f.RegistryProcessId?
  }

  predicate Template(f: Field) { f.TemplateTxId? || f.ManifestTxId? || f.TemplateSha256? || f.TemplateVariant? }

  predicate Allowed(k: Key, stored: bool) {
    k.Key? && k.spelling < Spellings(k.field) && (stored || k.field != UpdatedAt)
  }

  predicate Anchored(t: map<Key, Value>) {
    exists f :: (Process(f) || Template(f)) && FirstPresent(t, f, 0).Some?
  }

  datatype Result = Ok(p: Pointer) | InvalidType | UnsupportedField | MissingProcess | InvalidField(f: Field)

  // Field after field into `p`.
  function Collect(t: map<Key, Value>, fs: seq<Field>, p: Pointer): Result
    decreases |fs|
  {
    if fs == [] then Ok(p)
    else
      var v := FirstPresent(t, fs[0], 0);
      if v.None? then Collect(t, fs[1..], p)
      else if Checked(fs[0], v.value).None? then InvalidField(fs[0])
      else Collect(t, fs[1..], p[fs[0] := Checked(fs[0], v.value).value])
  }

  // normalize_runtime_pointer
  function Normalize(raw: Raw, stored: bool): Result {
    if raw.NotATable? then InvalidType
    else if exists k :: k in raw.t && !Allowed(k, stored) then UnsupportedField
    else if !Anchored(raw.t) then MissingProcess
    else Collect(raw.t, Fields(stored), map[])
  }

  lemma {:induction false} CollectExact(t: map<Key, Value>, fs: seq<Field>, p: Pointer)
    requires forall f :: f in fs ==> f !in p
    requires forall i, j :: 0 <= i < j < |fs| ==> fs[i] != fs[j]
    ensures var r := Collect(t, fs, p);
      r.Ok? ==> p.Keys <= r.p.Keys && (forall f :: f in p ==> r.p[f] == p[f]) &&
                (forall f :: f in r.p && f !in p ==> f in fs && FirstPresent(t, f, 0).Some?) &&
                forall f :: f in fs && FirstPresent(t, f, 0).Some? ==>
                  f in r.p && Checked(f, FirstPresent(t, f, 0).value) == Some(r.p[f])
    decreases |fs|
  {
    if fs != [] {
      assert fs == [fs[0]] + fs[1..];
      var v := FirstPresent(t, fs[0], 0);
      if v.None? {
        CollectExact(t, fs[1..], p);
      } else if Checked(fs[0], v.value).Some? {
        CollectExact(t, fs[1..], p[fs[0] := Checked(fs[0], v.value).value]);
      }
    }
  }

  // A pointer all of whose fields are canonical, with a process or template in it.
  predicate Valid(p: Pointer, stored: bool) {
    (forall f :: f in p ==> (stored || f != UpdatedAt) && Canonical(f, p[f])) &&
    exists f :: f in p && (Process(f) || Template(f))
  }

  // The field lists name every field there is, once.
  lemma FieldsAreAll(stored: bool)
    ensures forall i, j :: 0 <= i < j < |Fields(stored)| ==> Fields(stored)[i] != Fields(stored)[j]
    ensures forall f :: f in Fields(stored) <==> stored || f != UpdatedAt
  {
    forall f ensures f in INPUT_FIELDS <==> f != UpdatedAt {
      var n := Index(f);
      assert n < 15 ==> INPUT_FIELDS[n] == f;
    }
  }

  function Index(f: Field): nat {
    match f
    case ProcessId => 0
    case SiteProcessId => 1
    case CatalogProcessId => 2
    case AccessProcessId => 3
    case WriteProcessId => 4
    case IngestProcessId => 5
    case RegistryProcessId => 6
    case WorkerId => 7
    case WorkerUrl => 8
    case ModuleId => 9
    case Scheduler => 10
    case TemplateTxId => 11
    case ManifestTxId => 12
    case TemplateSha256 => 13
    case TemplateVariant => 14
    case UpdatedAt => 15
  }

  lemma {:induction false} CollectedField(t: map<Key, Value>, fs: seq<Field>, f: Field)
    requires forall i, j :: 0 <= i < j < |fs| ==> fs[i] != fs[j]
    requires Collect(t, fs, map[]).Ok? && f in Collect(t, fs, map[]).p
    ensures f in fs && Canonical(f, Collect(t, fs, map[]).p[f])
  {
    CollectExact(t, fs, map[]);
    CheckedIsStable(f, FirstPresent(t, f, 0).value);
  }

  lemma {:induction false} CollectKeeps(t: map<Key, Value>, fs: seq<Field>, p: Pointer, f: Field)
    requires Collect(t, fs, p).Ok? && (f in p || (f in fs && FirstPresent(t, f, 0).Some?))
    ensures f in Collect(t, fs, p).p
    decreases |fs|
  {
    if fs != [] {
      assert fs == [fs[0]] + fs[1..];
      var v := FirstPresent(t, fs[0], 0);
      CollectKeeps(t, fs[1..], if v.None? then p else p[fs[0] := Checked(fs[0], v.value).value], f);
    }
  }

  lemma {:induction false} CollectedAnchor(t: map<Key, Value>, fs: seq<Field>)
    requires (forall f :: f != UpdatedAt ==> f in fs) && Anchored(t) && Collect(t, fs, map[]).Ok?
    ensures exists f :: f in Collect(t, fs, map[]).p && (Process(f) || Template(f))
  {
    var f :| (Process(f) || Template(f)) && FirstPresent(t, f, 0).Some?;
    CollectKeeps(t, fs, map[], f);
  }

  lemma NormalizedIsValid(raw: Raw, stored: bool)
    requires Normalize(raw, stored).Ok?
    ensures Valid(Normalize(raw, stored).p, stored)
  {
    FieldsAreAll(stored);
    CollectedAnchor(raw.t, Fields(stored));
    forall f | f in Normalize(raw, stored).p
      ensures (stored || f != UpdatedAt) && Canonical(f, Normalize(raw, stored).p[f])
    {
      CollectedField(raw.t, Fields(stored), f);
    }
  }

  // A pointer as a table in canonical spelling, as the registry stores it.
  function AsTable(p: Pointer): Raw { Table(map f | f in p :: Key(f, 0) := Str(p[f])) }

  lemma {:induction false} CanonicalPresent(p: Pointer, f: Field, from: nat)
    ensures FirstPresent(AsTable(p).t, f, from) == if f in p && from == 0 then Some(Str(p[f])) else None
    decreases Spellings(f) - from
  {
    if from < Spellings(f) { CanonicalPresent(p, f, from + 1); }
  }

  lemma {:induction false} CollectCanonical(p: Pointer, fs: seq<Field>, q: Pointer)
    requires forall f :: f in fs && f in p ==> Canonical(f, p[f])
    requires forall f :: f in q ==> f in p && q[f] == p[f]
    requires forall f :: f in p ==> f in q || f in fs
    ensures Collect(AsTable(p).t, fs, q) == Ok(p)
    decreases |fs|
  {
    if fs != [] {
      assert fs == [fs[0]] + fs[1..];
      CanonicalPresent(p, fs[0], 0);
      CollectCanonical(p, fs[1..], if fs[0] in p then q[fs[0] := p[fs[0]]] else q);
    } else {
      assert p == q;
    }
  }

  lemma CanonicalKeys(p: Pointer, stored: bool)
    requires Valid(p, stored)
    ensures !exists k :: k in AsTable(p).t && !Allowed(k, stored)
  {
  }

  lemma CanonicalAnchor(p: Pointer, stored: bool)
    requires Valid(p, stored)
    ensures Anchored(AsTable(p).t)
  {
    var f :| f in p && (Process(f) || Template(f));
    CanonicalPresent(p, f, 0);
  }

  lemma CanonicalCollects(p: Pointer, stored: bool)
    requires Valid(p, stored)
    ensures Collect(AsTable(p).t, Fields(stored), map[]) == Ok(p)
  {
    FieldsAreAll(stored);
    CollectCanonical(p, Fields(stored), map[]);
  }

  // Main result: a valid pointer is a fixed point of normalisation ...
  lemma ValidIsFixed(p: Pointer, stored: bool)
    requires Valid(p, stored)
    ensures Normalize(AsTable(p), stored) == Ok(p)
  {
    CanonicalKeys(p, stored);
    CanonicalAnchor(p, stored);
    CanonicalCollects(p, stored);
  }

  // ... so normalising twice is normalising once, prefixes of digests included,
  // and what came in a message passes as stored as well.
  lemma NormalizeIsIdempotent(raw: Raw, stored: bool)
    requires Normalize(raw, stored).Ok?
    ensures var r := Normalize(raw, stored);
      Normalize(AsTable(r.p), stored) == r && Normalize(AsTable(r.p), true) == r
  {
    NormalizedIsValid(raw, stored);
    ValidIsFixed(Normalize(raw, stored).p, stored);
    ValidIsFixed(Normalize(raw, stored).p, true);
  }

  // ---------------------------------------------------------------- what is read from a table

  // The spelling of a field under which a table has it: the first of those it has.
  predicate SpelledBy(t: map<Key, Value>, f: Field, i: nat) {
    i < Spellings(f) && Key(f, i) in t && forall j :: 0 <= j < i ==> Key(f, j) !in t
  }

  lemma {:induction false} FirstPresentExact(t: map<Key, Value>, f: Field, from: nat)
    requires forall j :: 0 <= j < from ==> Key(f, j) !in t
    ensures FirstPresent(t, f, from).Some? <==> exists i :: SpelledBy(t, f, i)
    ensures forall i :: SpelledBy(t, f, i) ==> FirstPresent(t, f, from) == Some(t[Key(f, i)])
    decreases Spellings(f) - from
  {
    if from < Spellings(f) {
      if Key(f, from) in t {
        assert SpelledBy(t, f, from);
      } else {
        FirstPresentExact(t, f, from + 1);
      }
    }
  }

  // A field that the table has is acceptable under the spelling that counts.
  ghost predicate Acceptable(t: map<Key, Value>, f: Field) {
    forall i :: SpelledBy(t, f, i) ==> Checked(f, t[Key(f, i)]).Some?
  }

  ghost predicate AllAcceptable(t: map<Key, Value>, stored: bool) {
    forall f :: stored || f != UpdatedAt ==> Acceptable(t, f)
  }

  ghost predicate Present(t: map<Key, Value>, f: Field) { exists i :: SpelledBy(t, f, i) }

  ghost predicate HasAnchor(t: map<Key, Value>) { exists f :: (Process(f) || Template(f)) && Present(t, f) }

  predicate FieldOk(t: map<Key, Value>, f: Field) {
    FirstPresent(t, f, 0).Some? ==> Checked(f, FirstPresent(t, f, 0).value).Some?
  }

  lemma FieldOkExactly(t: map<Key, Value>, f: Field)
    ensures FieldOk(t, f) <==> Acceptable(t, f)
  {
    FirstPresentExact(t, f, 0);
  }

  lemma {:induction false} CollectAccepts(t: map<Key, Value>, fs: seq<Field>, p: Pointer)
    ensures Collect(t, fs, p).Ok? <==> forall f :: f in fs ==> FieldOk(t, f)
    decreases |fs|
  {
    if fs != [] {
      assert fs == [fs[0]] + fs[1..];
      var v := FirstPresent(t, fs[0], 0);
      if !FieldOk(t, fs[0]) {
        assert fs[0] in fs;
      } else if v.None? {
        CollectAccepts(t, fs[1..], p);
      } else {
        CollectAccepts(t, fs[1..], p[fs[0] := Checked(fs[0], v.value).value]);
      }
    }
  }

  lemma CollectAcceptsExactly(t: map<Key, Value>, stored: bool)
    ensures Collect(t, Fields(stored), map[]).Ok? <==> AllAcceptable(t, stored)
  {
    FieldsAreAll(stored);
    CollectAccepts(t, Fields(stored), map[]);
    forall f ensures FieldOk(t, f) <==> Acceptable(t, f) { FieldOkExactly(t, f); }
  }

  lemma AnchoredExactly(t: map<Key, Value>)
    ensures Anchored(t) <==> HasAnchor(t)
  {
    forall f ensures FirstPresent(t, f, 0).Some? <==> Present(t, f) { FirstPresentExact(t, f, 0); }
  }

  ghost predicate AllAllowed(t: map<Key, Value>, stored: bool) { forall k :: k in t ==> Allowed(k, stored) }

  lemma {:induction false} NormalizeSteps(t: map<Key, Value>, stored: bool)
    ensures Normalize(Table(t), stored).Ok? <==>
      AllAllowed(t, stored) && Anchored(t) && Collect(t, Fields(stored), map[]).Ok?
  {
  }

  // Main result: normalisation accepts exactly the tables with allowed keys only, a
  // process or template among them, and acceptable values under the first spelling
  // present of each field ...
  lemma {:induction false} NormalizeAcceptsExactly(raw: Raw, stored: bool)
    ensures Normalize(raw, stored).Ok? <==>
      raw.Table? && AllAllowed(raw.t, stored) && HasAnchor(raw.t) && AllAcceptable(raw.t, stored)
  {
    if raw.Table? {
      NormalizeSteps(raw.t, stored);
      AnchoredExactly(raw.t);
      CollectAcceptsExactly(raw.t, stored);
    }
  }

  // ... and the pointer has exactly those fields with those values in canonical form.
  lemma NormalizeReads(raw: Raw, stored: bool, f: Field)
    requires Normalize(raw, stored).Ok?
    ensures f in Normalize(raw, stored).p <==> (stored || f != UpdatedAt) && Present(raw.t, f)
    ensures forall i :: f in Normalize(raw, stored).p && SpelledBy(raw.t, f, i) ==>
      Checked(f, raw.t[Key(f, i)]) == Some(Normalize(raw, stored).p[f])
  {
    FieldsAreAll(stored);
    CollectExact(raw.t, Fields(stored), map[]);
    FirstPresentExact(raw.t, f, 0);
  }

  // A digest is accepted in lower or upper case, with "0x", with "sha256-" or with
  // both before it, and always stored as the bare 64 digits.
  lemma DigestForms(h: string)
    requires Sha256(h)
    ensures Checked(TemplateSha256, Str(h)) == Checked(TemplateSha256, Str("0x" + h)) == Some(h)
    ensures Checked(TemplateSha256, Str("sha256-" + h)) == Checked(TemplateSha256, Str("sha256-0x" + h)) == Some(h)
  {
    ShaIsStable(h);
    ShaAfterZero(h);
    ShaAfterName(h);
    ShaAfterBoth(h);
  }

  lemma ShaAfterZero(h: string)
    requires Sha256(h)
    ensures ShaText("0x" + h) == h
  {
    PrefixLowers("0x", h);
    var t, name := "0x" + h, "sha256-";
    assert t[2..] == h && t[0] == '0' && name[0] == 's';
    assert !(name <= t);
  }

  lemma NoPrefix(h: string)
    requires Sha256(h)
    ensures !("0x" <= h)
  {
    var q := "0x";
    assert q[1] == 'x' && HexDigit(h[1]);
  }

  lemma ShaAfterName(h: string)
    requires Sha256(h)
    ensures ShaText("sha256-" + h) == h
  {
    PrefixLowers("sha256-", h);
    NoPrefix(h);
    assert ("sha256-" + h)[7..] == h;
  }

  lemma ShaAfterBoth(h: string)
    requires Sha256(h)
    ensures ShaText("sha256-0x" + h) == h
  {
    PrefixLowers("sha256-0x", h);
    var t := "sha256-0x" + h;
    assert t == "sha256-" + ("0x" + h) && t[7..] == "0x" + h && ("0x" + h)[2..] == h;
  }

  lemma PrefixLowers(prefix: string, h: string)
    requires Sha256(h) && forall i :: 0 <= i < |prefix| ==> !('A' <= prefix[i] <= 'Z')
    ensures I.Lower(prefix + h) == prefix + h
  {
    var t := prefix + h;
    forall i | 0 <= i < |t| ensures I.Lower(t)[i] == t[i] {
      if i >= |prefix| { assert t[i] == h[i - |prefix|] && HexDigit(h[i - |prefix|]); }
    }
  }

  // ---------------------------------------------------------------- what callers are shown

  function ShownFields(t: map<Key, Value>): Pointer {
    map f: Field | Key(f, 0) in t && t[Key(f, 0)].Str? && t[Key(f, 0)].s != "" :: t[Key(f, 0)].s
  }

  // snapshot_runtime_pointer: nil unless some field other than the time is left to show.
  function Snapshot(raw: Raw): Option<Pointer> {
    if raw.NotATable? then None
    else if exists f :: f in ShownFields(raw.t) && f != UpdatedAt then Some(ShownFields(raw.t)) else None
  }

  lemma CanonicalIsText(f: Field, s: string)
    requires Canonical(f, s)
    ensures s != ""
  {
  }

  lemma ShownOfTable(p: Pointer)
    requires forall f :: f in p ==> p[f] != ""
    ensures ShownFields(AsTable(p).t) == p
  {
    var t := AsTable(p).t;
    forall f: Field ensures Key(f, 0) in t <==> f in p {}
    forall f | f in p ensures t[Key(f, 0)] == Str(p[f]) {}
    assert ShownFields(t).Keys == p.Keys;
  }

  // A valid pointer is shown whole: no canonical value is empty.
  lemma ValidIsShown(p: Pointer, stored: bool)
    requires Valid(p, stored)
    ensures Snapshot(AsTable(p)) == Some(p)
  {
    forall f | f in p ensures p[f] != "" { CanonicalIsText(f, p[f]); }
    ShownOfTable(p);
  }

  // Whatever it is merged into, a normalised pointer leaves something to show.
  lemma MergedIsShown(t: map<Key, Value>, q: Pointer, now: string)
    requires Valid(q, false)
    ensures var shown := Snapshot(Table((t + AsTable(q).t)[Key(UpdatedAt, 0) := Str(now)]));
      shown.Some? && forall f :: f in q ==> f in shown.value && shown.value[f] == q[f]
  {
    var merged := (t + AsTable(q).t)[Key(UpdatedAt, 0) := Str(now)];
    forall f | f in q ensures f in ShownFields(merged) && ShownFields(merged)[f] == q[f] {
      CanonicalIsText(f, q[f]);
      assert Key(f, 0) in AsTable(q).t && merged[Key(f, 0)] == Str(q[f]);
    }
    var f :| f in q && (Process(f) || Template(f));
    assert f in ShownFields(merged);
  }

  // ---------------------------------------------------------------- merging

  function Merged(p: Pointer, q: Pointer, now: string): Pointer { (p + q)[UpdatedAt := now] }

  // Merging keeps validity and never drops a pointer.
  lemma MergeIsValid(p: Pointer, q: Pointer, now: string)
    requires Valid(p, true) && Valid(q, false) && I.IsoUtc(now)
    ensures Valid(Merged(p, q, now), true)
    ensures p.Keys <= Merged(p, q, now).Keys
    ensures forall f :: f in q && f != UpdatedAt ==> Merged(p, q, now)[f] == q[f]
  {
    var m := Merged(p, q, now);
    assert Canonical(UpdatedAt, now);
    forall f | f in m ensures Canonical(f, m[f]) {
      assert m[f] == if f == UpdatedAt then now else if f in q then q[f] else p[f];
    }
    var f :| f in p && (Process(f) || Template(f));
    assert f in m;
  }
}
