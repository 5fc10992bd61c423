// The registry's own JSON encoder, encode_json_fallback: it walks a graph of
// Lua tables, which may be shared and may be cyclic, and cuts every cycle with
// the help of one table `seen` that it changes and restores as it goes.
module LuaJson {
  import opened TextOrder
  import opened JsonText
  import opened Wrappers

  // An integer, a string, or any other key by its text: a fractional number, a boolean, a table.
  datatype Key = IntKey(n: int) | StrKey(s: Text) | OtherKey(shown: Text)

  datatype LuaValue =
    | Nil
    | Boolean(b: bool)
    | Finite(digits: Text)   // tostring of the number
    | NonFinite              // nan, inf, -inf
    | String(s: Text)
    | Other(shown: Text)     // functions, userdata: tostring of the value
    | Ref(id: nat)           // a table, by identity

  type Table = map<Key, LuaValue>
  type Heap = map<nat, Table>

  const CYCLE: Text := [95, 95, 99, 121, 99, 108, 101, 95, 95]   // __cycle__

  function Decimal(n: int): Text
    decreases if n < 0 then 1 else 0, if n < 0 then -n else n
  {
    if n < 0 then [45] + Decimal(-n)
    else if n < 10 then [48 + n]
    else Decimal(n / 10) + [48 + n % 10]
  }

  // tostring of a key
  function KeyText(k: Key): Text {
    match k
    case IntKey(n) => Decimal(n)
    case StrKey(s) => s
    case OtherKey(shown) => shown
  }

  ghost predicate RefOk(h: Heap, v: LuaValue) { v.Ref? ==> v.id in h }

  // Every reference names a table, and no table has two keys with one text.
  ghost predicate HeapOk(h: Heap) {
    forall id :: id in h ==> TableOk(h, h[id])
  }

  ghost predicate TableOk(h: Heap, t: Table) {
    (forall k :: k in t ==> RefOk(h, t[k])) &&
    forall k, l :: k in t && l in t && KeyText(k) == KeyText(l) ==> k == l
  }

  // ---------------------------------------------------------------- json_quote

  function Gsub(s: Text, c: int, repl: Text): Text {
    if s == [] then [] else (if s[0] == c then repl else [s[0]]) + Gsub(s[1..], c, repl)
  }

  lemma {:induction false} GsubConcat(a: Text, b: Text, c: int, repl: Text)
    ensures Gsub(a + b, c, repl) == Gsub(a, c, repl) + Gsub(b, c, repl)
  {
    if a == [] {
      assert a + b == b;
    } else {
      GsubConcat(a[1..], b, c, repl);
      var whole, tail := a + b, a[1..] + b;
      assert whole[1..] == tail && whole[0] == a[0];
      Associate(if a[0] == c then repl else [a[0]], Gsub(a[1..], c, repl), Gsub(b, c, repl));
    }
  }

  lemma {:induction false} Associate(a: Text, b: Text, c: Text)
    ensures a + (b + c) == a + b + c
  {
  }

  function FiveGsubs(s: Text): Text {
    var s1 := Gsub(s, BACKSLASH, [BACKSLASH, BACKSLASH]);
    var s2 := Gsub(s1, QUOTE, [BACKSLASH, QUOTE]);
    var s3 := Gsub(s2, 10, [BACKSLASH, 110]);
    var s4 := Gsub(s3, 13, [BACKSLASH, 114]);
    Gsub(s4, 9, [BACKSLASH, 116])
  }

  lemma {:induction false} FiveGsubsConcat(a: Text, b: Text)
    ensures FiveGsubs(a + b) == FiveGsubs(a) + FiveGsubs(b)
  {
    var a1, b1 := Gsub(a, BACKSLASH, [BACKSLASH, BACKSLASH]), Gsub(b, BACKSLASH, [BACKSLASH, BACKSLASH]);
    GsubConcat(a, b, BACKSLASH, [BACKSLASH, BACKSLASH]);
    var a2, b2 := Gsub(a1, QUOTE, [BACKSLASH, QUOTE]), Gsub(b1, QUOTE, [BACKSLASH, QUOTE]);
    GsubConcat(a1, b1, QUOTE, [BACKSLASH, QUOTE]);
    var a3, b3 := Gsub(a2, 10, [BACKSLASH, 110]), Gsub(b2, 10, [BACKSLASH, 110]);
    GsubConcat(a2, b2, 10, [BACKSLASH, 110]);
    var a4, b4 := Gsub(a3, 13, [BACKSLASH, 114]), Gsub(b3, 13, [BACKSLASH, 114]);
    GsubConcat(a3, b3, 13, [BACKSLASH, 114]);
    GsubConcat(a4, b4, 9, [BACKSLASH, 116]);
  }

  // A unit behind a backslash is left alone by every later replacement.
  lemma {:induction false} GsubPair(d: int, e: int, repl: Text)
    requires e != d && e != BACKSLASH
    ensures Gsub([BACKSLASH, d], e, repl) == [BACKSLASH, d]
  {
    var s := [BACKSLASH, d];
    assert s[1..] == [d];
    GsubOne(d, e, repl);
    assert [BACKSLASH] + [d] == s;
  }

  lemma {:induction false} GsubOne(d: int, e: int, repl: Text)
    ensures Gsub([d], e, repl) == if e == d then repl else [d]
  {
    assert [d][1..] == [];
    assert repl + [] == repl;
  }

  lemma FiveGsubsUnit(c: int)
    ensures FiveGsubs([c]) == LuaUnit(c)
  {
    forall d, e, repl: Text | e != d && e != BACKSLASH
      ensures Gsub([BACKSLASH, d], e, repl) == [BACKSLASH, d]
    {
      GsubPair(d, e, repl);
    }
    forall d, e, repl: Text ensures Gsub([d], e, repl) == if e == d then repl else [d] {
      GsubOne(d, e, repl);
    }
  }

  // The five replacements of json_quote, one after the other, never see each
  // other's output: together they escape each unit once.
  lemma {:induction false} FiveGsubsEscape(s: Text)
    ensures FiveGsubs(s) == LuaBody(s)
  {
    if s != [] {
      FiveGsubsConcat([s[0]], s[1..]);
      FiveGsubsUnit(s[0]);
      FiveGsubsEscape(s[1..]);
      assert s == [s[0]] + s[1..];
    }
  }

  // ---------------------------------------------------------------- is_array

  ghost function Range(n: nat): set<Key> { set i | 1 <= i <= n :: IntKey(i) }

  ghost predicate IsArray(t: Table) { t.Keys == Range(|t|) }

  lemma {:induction false} RangeSize(n: nat)
    ensures |Range(n)| == n
  {
    if n > 0 {
      RangeSize(n - 1);
      assert Range(n) == Range(n - 1) + {IntKey(n)};
    }
  }

  method CheckArray(t: Table) returns (ok: bool, length: nat)
    ensures ok <==> IsArray(t)
    ensures length == if ok then |t| else 0
  {
    var max, count := 0, 0;
    var todo := t.Keys;
    while todo != {}
      invariant todo <= t.Keys && count == |t| - |todo| && max >= 0
      invariant forall k :: k in t.Keys - todo ==> k.IntKey? && 1 <= k.n <= max
      invariant if max == 0 then todo == t.Keys else IntKey(max) in t
      decreases todo
    {
      var k :| k in todo;
      if !k.IntKey? || k.n <= 0 {
        assert k in t.Keys && k !in Range(|t|);
        return false, 0;
      }
      if k.n > max { max := k.n; }
      count := count + 1;
      todo := todo - {k};
    }
    RangeSize(max);
    forall k | k in t.Keys ensures k in Range(max) {
      assert k in t.Keys - todo;
      assert k == IntKey(k.n);
    }
    if IsArray(t) && max > 0 {
      assert IntKey(max) in Range(|t|);
      assert IntKey(|t|) in Range(|t|);
    }
    if max == 0 { return true, 0; }
    if max != count { return false, 0; }
    SubsetSize(t.Keys, Range(max));
    return true, max;
  }

  // ---------------------------------------------------------------- what the encoder prints

  ghost function Texts(t: Table): set<Text> { set k | k in t :: KeyText(k) }

  lemma {:induction false} SortedExists(s: set<Text>) returns (ks: seq<Text>)
    ensures Sorted(ks) && forall x :: x in ks <==> x in s
  {
    if s == {} {
      ks := [];
    } else {
      var x :| x in s;
      var rest := SortedExists(s - {x});
      InsertSorts(x, rest);
      ks := Insert(x, rest);
    }
  }

  // The keys of a table in the order in which the encoder visits them.
  ghost function SortedTexts(t: Table): (ks: seq<Text>)
    ensures Sorted(ks) && forall x :: x in ks <==> x in Texts(t)
  {
    var w: seq<Text> := SortedWitness(Texts(t));
    w
  }

  ghost function SortedWitness(s: set<Text>): (ks: seq<Text>)
    ensures Sorted(ks) && forall x :: x in ks <==> x in s
  {
    assert exists ks: seq<Text> :: SortedElements(ks, s) by {
      var ks := SortedExists(s);
      assert SortedElements(ks, s);
    }
    var ks: seq<Text> :| SortedElements(ks, s);
    ks
  }

  ghost predicate SortedElements(ks: seq<Text>, s: set<Text>) {
    Sorted(ks) && forall x :: x in ks <==> x in s
  }

  ghost function At(t: Table, k: Text): LuaValue
    requires k in Texts(t)
  {
    var key :| key in t && KeyText(key) == k;
    t[key]
  }

  ghost function Element(t: Table, i: nat): LuaValue
    requires IsArray(t) && i < |t|
  {
    assert IntKey(i + 1) in Range(|t|);
    t[IntKey(i + 1)]
  }

  lemma ElementIn(t: Table, i: nat)
    requires IsArray(t) && i < |t|
    ensures IntKey(i + 1) in t && t[IntKey(i + 1)] == Element(t, i)
  {
    assert IntKey(i + 1) in Range(|t|);
  }

  lemma {:induction false} AtIn(t: Table, k: Text) returns (key: Key)
    requires k in Texts(t)
    ensures key in t && KeyText(key) == k && t[key] == At(t, k)
  {
    key :| key in t && KeyText(key) == k && t[key] == At(t, k);
  }

  lemma FewerUnseen(h: Heap, seen: set<nat>, id: nat)
    requires id in h && id !in seen
    ensures |h.Keys - (seen + {id})| < |h.Keys - seen|
  {
    assert h.Keys - (seen + {id}) == (h.Keys - seen) - {id};
  }

  function Scalar(v: LuaValue): Json
    requires !v.Ref?
  {
    match v
    case Nil => Null
    case Boolean(b) => Bool(b)
    case Finite(t) => Num(t)
    case NonFinite => Null
    case String(s) => Str(s)
    case Other(s) => Str(s)
  }

  // The tree below a value, with every way back to a table on the current path
  // replaced by the string "__cycle__".
  ghost function Unfold(h: Heap, v: LuaValue, seen: set<nat>): Json
    requires HeapOk(h) && RefOk(h, v)
    decreases |h.Keys - seen|
  {
    if !v.Ref? then Scalar(v)
    else if v.id in seen then Str(CYCLE)
    else
      FewerUnseen(h, seen, v.id);
      var t := h[v.id];
      if IsArray(t) then
        Arr(seq(|t|, i requires 0 <= i < |t| => Unfold(h, Element(t, i), seen + {v.id})))
      else
        var ks := SortedTexts(t);
        Obj(seq(|ks|, i requires 0 <= i < |ks| =>
          assert ks[i] in ks; Field(ks[i], Unfold(h, At(t, ks[i]), seen + {v.id}))))
  }

  lemma {:induction false} JoinItems(out: seq<Text>, items: seq<Json>)
    requires |out| == |items| && forall i :: 0 <= i < |out| ==> out[i] == Print(Lua, items[i])
    ensures Join(out) == PrintItems(Lua, items)
  {
    if |out| > 1 { JoinItems(out[1..], items[1..]); }
  }

  function Member(f: Field): Text { Quote(Lua, f.key) + [COLON] + Print(Lua, f.value) }

  // The texts of the first |out| fields.
  predicate Members(out: seq<Text>, fields: seq<Field>) {
    |out| <= |fields| && forall i :: 0 <= i < |out| ==> out[i] == Member(fields[i])
  }

  lemma {:induction false} JoinFields(out: seq<Text>, fields: seq<Field>)
    requires |out| == |fields| && Members(out, fields)
    ensures Join(out) == PrintFields(Lua, fields)
  {
    if |out| > 1 { JoinFields(out[1..], fields[1..]); }
  }

  // What the encoder's next key contributes.
  lemma {:induction false} UnfoldedField(h: Heap, id: nat, seen: set<nat>, i: nat, key: Key)
    requires HeapOk(h) && id in h && id !in seen && !IsArray(h[id])
    requires i < |SortedTexts(h[id])| && key in h[id] && KeyText(key) == SortedTexts(h[id])[i]
    ensures var v := Unfold(h, Ref(id), seen);
      v.Obj? && |v.fields| == |SortedTexts(h[id])| &&
      v.fields[i] == Field(KeyText(key), Unfold(h, h[id][key], seen + {id}))
  {
    assert KeyText(key) in Texts(h[id]) && At(h[id], KeyText(key)) == h[id][key];
  }

  lemma {:induction false} OneMoreText(out: seq<Text>, fields: seq<Field>)
    requires Members(out, fields) && |out| < |fields|
    ensures Members(out + [Member(fields[|out|])], fields)
  {
  }

  // The elements of an array that are printed so far.
  ghost predicate ElementsPrinted(h: Heap, id: nat, seen: set<nat>, out: seq<Text>)
    requires HeapOk(h) && id in h && id !in seen && IsArray(h[id])
  {
    |out| <= |h[id]| && forall i :: 0 <= i < |out| ==> out[i] == Print(Lua, Unfold(h, Ref(id), seen).items[i])
  }

  lemma {:induction false} OneMoreElement(h: Heap, id: nat, seen: set<nat>, out: seq<Text>)
    requires HeapOk(h) && id in h && id !in seen && IsArray(h[id]) && ElementsPrinted(h, id, seen, out)
    requires |out| < |h[id]|
    ensures var key := IntKey(|out| + 1);
      key in h[id] && RefOk(h, h[id][key]) &&
      ElementsPrinted(h, id, seen, out + [Print(Lua, Unfold(h, h[id][key], seen + {id}))])
  {
    ElementIn(h[id], |out|);
  }

  lemma {:induction false} PrintedArray(h: Heap, id: nat, seen: set<nat>, out: seq<Text>)
    requires HeapOk(h) && id in h && id !in seen && IsArray(h[id])
    requires ElementsPrinted(h, id, seen, out) && |out| == |h[id]|
    ensures [LBRACKET] + Join(out) + [RBRACKET] == Print(Lua, Unfold(h, Ref(id), seen))
  {
    JoinItems(out, Unfold(h, Ref(id), seen).items);
  }

  // The members of a table that are printed so far, in the order of its sorted keys.
  ghost predicate Printed(h: Heap, id: nat, seen: set<nat>, out: seq<Text>)
    requires HeapOk(h) && id in h && id !in seen && !IsArray(h[id])
  {
    Members(out, Unfold(h, Ref(id), seen).fields)
  }

  lemma {:induction false} OneMoreMember(h: Heap, id: nat, seen: set<nat>, out: seq<Text>, key: Key)
    requires HeapOk(h) && id in h && id !in seen && !IsArray(h[id]) && Printed(h, id, seen, out)
    requires |out| < |SortedTexts(h[id])| && key in h[id] && KeyText(key) == SortedTexts(h[id])[|out|]
    ensures var text := Quote(Lua, KeyText(key)) + [COLON] + Print(Lua, Unfold(h, h[id][key], seen + {id}));
      Printed(h, id, seen, out + [text])
  {
    UnfoldedField(h, id, seen, |out|, key);
    OneMoreText(out, Unfold(h, Ref(id), seen).fields);
  }

  lemma {:induction false} PrintedObject(h: Heap, id: nat, seen: set<nat>, out: seq<Text>)
    requires HeapOk(h) && id in h && id !in seen && !IsArray(h[id])
    requires Printed(h, id, seen, out) && |out| == |SortedTexts(h[id])|
    ensures [LBRACE] + Join(out) + [RBRACE] == Print(Lua, Unfold(h, Ref(id), seen))
  {
    JoinFields(out, Unfold(h, Ref(id), seen).fields);
  }

  // ---------------------------------------------------------------- the encoder

  method JsonQuote(s: Text) returns (r: Text)
    ensures r == Quote(Lua, s)
  {
    FiveGsubsEscape(s);
    r := [QUOTE] + FiveGsubs(s) + [QUOTE];
  }

  // The keys of a table, collected in an unspecified order and then sorted.
  method SortedKeyList(t: Table) returns (ks: seq<Text>)
    requires forall k, l :: k in t && l in t && KeyText(k) == KeyText(l) ==> k == l
    ensures ks == SortedTexts(t)
  {
    var texts: seq<Text> := [];
    var todo := t.Keys;
    while todo != {}
      invariant todo <= t.Keys && Distinct(texts)
      invariant forall x :: x in texts <==> exists k :: k in t.Keys - todo && KeyText(k) == x
      decreases todo
    {
      var k :| k in todo;
      assert KeyText(k) !in texts;
      ghost var before, left := texts, todo;
      texts := texts + [KeyText(k)];
      todo := todo - {k};
      forall x ensures x in texts <==> exists l :: l in t.Keys - todo && KeyText(l) == x {
        assert x in texts <==> x in before || x == KeyText(k);
        assert t.Keys - todo == (t.Keys - left) + {k};
      }
    }
    SortSorts(texts);
    ks := SortKeys(texts);
    assert t.Keys - {} == t.Keys;
    SortedUnique(ks, SortedTexts(t));
  }

  method EncodeScalar(v: LuaValue) returns (r: Text)
    requires !v.Ref?
    ensures r == Print(Lua, Scalar(v))
  {
    match v
    case Nil => return NULL_TEXT;
    case Boolean(b) => return if b then TRUE_TEXT else FALSE_TEXT;
    case Finite(t) => return t;
    case NonFinite => return NULL_TEXT;
    case String(s) => r := JsonQuote(s);
    case Other(s) => r := JsonQuote(s);
  }

  method EncodeCycle() returns (r: Text)
    ensures r == Print(Lua, Str(CYCLE))
  {
    r := JsonQuote(CYCLE);
  }

  class Encoder {
    const h: Heap
    var seen: set<nat>

    constructor (h: Heap)
      ensures this.h == h && seen == {}
    {
      this.h := h;
      seen := {};
    }

    // Terminates on every finite graph of tables: each call that descends
    // leaves one table less outside `seen`, and every return puts it back.
    method Encode(v: LuaValue) returns (r: Text)
      requires HeapOk(h) && RefOk(h, v)
      modifies this
      ensures seen == old(seen)
      ensures r == Print(Lua, Unfold(h, v, old(seen)))
      decreases |h.Keys - seen|, 1
    {
      if !v.Ref? {
        r := EncodeScalar(v);
      } else if v.id in seen {
        r := EncodeCycle();
      } else {
        r := EncodeTable(v.id);
      }
    }

    method EncodeTable(id: nat) returns (r: Text)
      requires HeapOk(h) && id in h && id !in seen
      modifies this
      ensures seen == old(seen)
      ensures r == Print(Lua, Unfold(h, Ref(id), old(seen)))
      decreases |h.Keys - seen|, 0
    {
      FewerUnseen(h, seen, id);
      var t := h[id];
      var arrayLike, length := CheckArray(t);
      if arrayLike {
        r := EncodeArray(id, t, length);
      } else {
        r := EncodeObject(id, t);
      }
    }

    method EncodeArray(id: nat, t: Table, length: nat) returns (r: Text)
      requires HeapOk(h) && id in h && id !in seen && t == h[id] && IsArray(t) && length == |t|
      modifies this
      ensures seen == old(seen)
      ensures r == Print(Lua, Unfold(h, Ref(id), old(seen)))
      decreases |h.Keys - (seen + {id})|, 2
    {
      ghost var before := seen;
      seen := seen + {id};
      var out: seq<Text> := [];
      for i := 0 to length
        invariant seen == before + {id} && |out| == i && ElementsPrinted(h, id, before, out)
      {
        OneMoreElement(h, id, before, out);
        var part := Encode(t[IntKey(i + 1)]);
        out := out + [part];
      }
      seen := seen - {id};
      assert seen == before;
      PrintedArray(h, id, seen, out);
      r := [LBRACKET] + Join(out) + [RBRACKET];
    }

    method EncodeObject(id: nat, t: Table) returns (r: Text)
      requires HeapOk(h) && id in h && id !in seen && t == h[id] && !IsArray(t)
      modifies this
      ensures seen == old(seen)
      ensures r == Print(Lua, Unfold(h, Ref(id), old(seen)))
      decreases |h.Keys - (seen + {id})|, 2
    {
      ghost var before := seen;
      seen := seen + {id};
      var out: seq<Text> := [];
      var ks := SortedKeyList(t);
      for i := 0 to |ks|
        invariant seen == before + {id} && |out| == i && Printed(h, id, before, out)
      {
        assert ks[i] in Texts(t);
        var key :| key in t.Keys && KeyText(key) == ks[i];
        OneMoreMember(h, id, before, out, key);
        var name := JsonQuote(ks[i]);
        var part := Encode(t[key]);
        out := out + [name + [COLON] + part];
      }
      seen := seen - {id};
      PrintedObject(h, id, seen, out);
      r := [LBRACE] + Join(out) + [RBRACE];
    }
  }

  // ---------------------------------------------------------------- round trip

  ghost predicate Clean(v: LuaValue) {
    match v
    case Finite(t) => IsNumber(t)
    case String(s) => Printable(Lua, s)
    case Other(s) => Printable(Lua, s)
    case _ => true
  }

  ghost predicate CleanHeap(h: Heap) {
    forall id, k :: id in h && k in h[id] ==> Printable(Lua, KeyText(k)) && Clean(h[id][k])
  }

  lemma {:induction false} UnfoldWellFormed(h: Heap, v: LuaValue, seen: set<nat>)
    requires HeapOk(h) && RefOk(h, v) && CleanHeap(h) && Clean(v)
    ensures WellFormed(Lua, Unfold(h, v, seen))
    decreases |h.Keys - seen|
  {
    if v.Ref? && v.id !in seen {
      FewerUnseen(h, seen, v.id);
      var t := h[v.id];
      if IsArray(t) {
        forall i | 0 <= i < |t| ensures WellFormed(Lua, Unfold(h, Element(t, i), seen + {v.id})) {
          ElementIn(t, i);
          UnfoldWellFormed(h, Element(t, i), seen + {v.id});
        }
      } else {
        var ks := SortedTexts(t);
        forall i | 0 <= i < |ks|
          ensures ks[i] in Texts(t) && Printable(Lua, ks[i]) &&
                  WellFormed(Lua, Unfold(h, At(t, ks[i]), seen + {v.id}))
        {
          assert ks[i] in ks;
          var key := AtIn(t, ks[i]);
          UnfoldWellFormed(h, At(t, ks[i]), seen + {v.id});
        }
      }
    }
  }

  // The output is JSON, and a JSON parser reads exactly the unfolded tree.
  lemma EncodedParses(h: Heap, v: LuaValue, seen: set<nat>)
    requires HeapOk(h) && RefOk(h, v) && CleanHeap(h) && Clean(v)
    ensures ParseValue(Print(Lua, Unfold(h, v, seen))) == Ok(Unfold(h, v, seen), [])
  {
    var tree := Unfold(h, v, seen);
    UnfoldWellFormed(h, v, seen);
    PrintRoundTrip(Lua, tree, []);
    assert Print(Lua, tree) + [] == Print(Lua, tree);
  }

  // ---------------------------------------------------------------- graphs without cycles

  // A graph has no cycle when its tables can be ranked so that references go down.
  ghost predicate Ranked(h: Heap, rank: map<nat, nat>) {
    (forall id :: id in h ==> id in rank) &&
    forall id, k :: id in h && k in h[id] && h[id][k].Ref? ==> h[id][k].id in h && rank[h[id][k].id] < rank[id]
  }

  ghost function Height(rank: map<nat, nat>, v: LuaValue): nat {
    if v.Ref? && v.id in rank then rank[v.id] + 1 else 0
  }

  // The plain tree below a value, with no regard to what was visited.
  ghost function TreeOf(h: Heap, rank: map<nat, nat>, v: LuaValue): Json
    requires HeapOk(h) && RefOk(h, v) && Ranked(h, rank)
    decreases Height(rank, v)
  {
    match v
    case Nil => Null
    case Boolean(b) => Bool(b)
    case Finite(t) => Num(t)
    case NonFinite => Null
    case String(s) => Str(s)
    case Other(s) => Str(s)
    case Ref(id) =>
      var t := h[id];
      if IsArray(t) then
        Arr(seq(|t|, i requires 0 <= i < |t| => TreeOf(h, rank, Element(t, i))))
      else
        var ks := SortedTexts(t);
        Obj(seq(|ks|, i requires 0 <= i < |ks| =>
          assert ks[i] in ks; Field(ks[i], TreeOf(h, rank, At(t, ks[i])))))
  }

  lemma SameArray(h: Heap, rank: map<nat, nat>, id: nat, seen: set<nat>)
    requires HeapOk(h) && id in h && id !in seen && Ranked(h, rank) && IsArray(h[id])
    requires forall i :: 0 <= i < |h[id]| ==>
      Unfold(h, Element(h[id], i), seen + {id}) == TreeOf(h, rank, Element(h[id], i))
    ensures Unfold(h, Ref(id), seen) == TreeOf(h, rank, Ref(id))
  {
  }

  lemma SameObject(h: Heap, rank: map<nat, nat>, id: nat, seen: set<nat>)
    requires HeapOk(h) && id in h && id !in seen && Ranked(h, rank) && !IsArray(h[id])
    requires forall k :: k in Texts(h[id]) ==>
      Unfold(h, At(h[id], k), seen + {id}) == TreeOf(h, rank, At(h[id], k))
    ensures Unfold(h, Ref(id), seen) == TreeOf(h, rank, Ref(id))
  {
    var ks := SortedTexts(h[id]);
    var a, b := Unfold(h, Ref(id), seen).fields, TreeOf(h, rank, Ref(id)).fields;
    forall i | 0 <= i < |ks| ensures a[i] == b[i] { assert ks[i] in ks; }
  }

  // Without cycles nothing is ever cut, however tables are shared.
  lemma {:induction false} NoCycleNoCut(h: Heap, rank: map<nat, nat>, v: LuaValue, seen: set<nat>)
    requires HeapOk(h) && RefOk(h, v) && Ranked(h, rank)
    requires forall id :: id in seen ==> id in rank && Height(rank, v) <= rank[id]
    ensures Unfold(h, v, seen) == TreeOf(h, rank, v)
    decreases Height(rank, v)
  {
    if v.Ref? {
      var t := h[v.id];
      if IsArray(t) {
        forall i | 0 <= i < |t|
          ensures Unfold(h, Element(t, i), seen + {v.id}) == TreeOf(h, rank, Element(t, i))
        {
          ElementIn(t, i);
          NoCycleNoCut(h, rank, Element(t, i), seen + {v.id});
        }
        SameArray(h, rank, v.id, seen);
      } else {
        forall k | k in Texts(t)
          ensures Unfold(h, At(t, k), seen + {v.id}) == TreeOf(h, rank, At(t, k))
        {
          var key := AtIn(t, k);
          NoCycleNoCut(h, rank, At(t, k), seen + {v.id});
        }
        SameObject(h, rank, v.id, seen);
      }
    }
  }

  // Hence the text of a value without cycles parses to the value itself.
  lemma AcyclicRoundTrip(h: Heap, rank: map<nat, nat>, v: LuaValue)
    requires HeapOk(h) && RefOk(h, v) && CleanHeap(h) && Clean(v) && Ranked(h, rank)
    ensures ParseValue(Print(Lua, Unfold(h, v, {}))) == Ok(TreeOf(h, rank, v), [])
  {
    NoCycleNoCut(h, rank, v, {});
    EncodedParses(h, v, {});
  }
}
