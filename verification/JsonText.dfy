// JSON text as both halves of the system print it: the worker's signing code
// (UTF-16 code units) and the registry's fallback encoder (bytes).  The parser
// follows the grammar of RFC 8259 for text without insignificant whitespace,
// and is the independent reference against which both printers are proved.
module JsonText {

  import opened TextOrder

  datatype Json =
    | Null
    | Bool(b: bool)
    | Num(digits: Text)      // the number, by its printed text
    | Str(text: Text)
    | Arr(items: seq<Json>)
    | Obj(fields: seq<Field>)

  datatype Field = Field(key: Text, value: Json)

  const QUOTE := 34
  const BACKSLASH := 92
  const COMMA := 44
  const COLON := 58
  const LBRACKET := 91
  const RBRACKET := 93
  const LBRACE := 123
  const RBRACE := 125
  const BAR := 124

  const NULL_TEXT: Text := [110, 117, 108, 108]          // null
  const TRUE_TEXT: Text := [116, 114, 117, 101]          // true
  const FALSE_TEXT: Text := [102, 97, 108, 115, 101]     // false

  // ---------------------------------------------------------------- numbers

  predicate Digit(c: int) { 48 <= c <= 57 }

  // '+', '-', '.', 'e', 'E' and the digits: every unit that can occur in a number.
  predicate NumberUnit(c: int) { Digit(c) || c in {43, 45, 46, 69, 101} }

  // The number grammar of section 6 of RFC 8259, as an automaton.
  datatype NumState = Start | Minus | Zero | Int | Dot | Frac | Exp | ExpSign | ExpInt | Bad

  function NumStep(st: NumState, c: int): NumState {
    match st
    case Start => if c == 45 then Minus else if c == 48 then Zero else if Digit(c) then Int else Bad
    case Minus => if c == 48 then Zero else if Digit(c) then Int else Bad
    case Zero => if c == 46 then Dot else if c == 69 || c == 101 then Exp else Bad
    case Int => if Digit(c) then Int else if c == 46 then Dot else if c == 69 || c == 101 then Exp else Bad
    case Dot => if Digit(c) then Frac else Bad
    case Frac => if Digit(c) then Frac else if c == 69 || c == 101 then Exp else Bad
    case Exp => if Digit(c) then ExpInt else if c == 43 || c == 45 then ExpSign else Bad
    case ExpSign => if Digit(c) then ExpInt else Bad
    case ExpInt => if Digit(c) then ExpInt else Bad
    case Bad => Bad
  }

  function NumRun(st: NumState, t: Text): NumState
    decreases |t|
  {
    if t == [] then st else NumRun(NumStep(st, t[0]), t[1..])
  }

  predicate IsNumber(t: Text) {
    NumRun(Start, t) in {Zero, Int, Frac, ExpInt} && forall i :: 0 <= i < |t| ==> NumberUnit(t[i])
  }

  function NumberLen(s: Text): (n: nat)
    ensures n <= |s| && (forall i :: 0 <= i < n ==> NumberUnit(s[i]))
    ensures n < |s| ==> !NumberUnit(s[n])
  {
    if s == [] || !NumberUnit(s[0]) then 0 else 1 + NumberLen(s[1..])
  }

  // ---------------------------------------------------------------- strings

  predicate High(c: int) { 0xD800 <= c <= 0xDBFF }
  predicate Low(c: int) { 0xDC00 <= c <= 0xDFFF }

  function HexUnit(n: int): int
    requires 0 <= n < 16
  {
    if n < 10 then 48 + n else 87 + n
  }

  function Hex4(c: int): Text
    requires 0 <= c < 0x10000
  {
    [HexUnit(c / 4096), HexUnit(c / 256 % 16), HexUnit(c / 16 % 16), HexUnit(c % 16)]
  }

  function HexValue(c: int): int {
    if Digit(c) then c - 48 else if 97 <= c <= 102 then c - 87 else if 65 <= c <= 70 then c - 55 else -1
  }

  datatype Style = Js | Lua

  // Which strings a style can carry: sixteen-bit units for the worker; for the
  // registry every byte string whose only control bytes are \n, \r and \t.
  predicate Printable(style: Style, s: Text) {
    match style
    case Js => forall i :: 0 <= i < |s| ==> 0 <= s[i] < 0x10000
    case Lua => forall i :: 0 <= i < |s| ==> 32 <= s[i] || s[i] in {9, 10, 13}
  }

  // One unit inside quotes, as JSON.stringify writes it; a surrogate on its own is escaped.
  function JsUnit(c: int): Text {
    if c == QUOTE || c == BACKSLASH then [BACKSLASH, c]
    else if c == 8 then [BACKSLASH, 98]
    else if c == 12 then [BACKSLASH, 102]
    else if c == 10 then [BACKSLASH, 110]
    else if c == 13 then [BACKSLASH, 114]
    else if c == 9 then [BACKSLASH, 116]
    else if 0 <= c < 32 || High(c) || Low(c) then [BACKSLASH, 117] + Hex4(c)
    else [c]
  }

  function JsBody(s: Text): Text {
    if s == [] then []
    else if |s| > 1 && High(s[0]) && Low(s[1]) then [s[0], s[1]] + JsBody(s[2..])
    else JsUnit(s[0]) + JsBody(s[1..])
  }

  // json_quote replaces five units by two-unit escapes and copies the rest.
  function LuaUnit(c: int): Text {
    if c == QUOTE || c == BACKSLASH then [BACKSLASH, c]
    else if c == 10 then [BACKSLASH, 110]
    else if c == 13 then [BACKSLASH, 114]
    else if c == 9 then [BACKSLASH, 116]
    else [c]
  }

  function LuaBody(s: Text): Text {
    if s == [] then [] else LuaUnit(s[0]) + LuaBody(s[1..])
  }

  function Quote(style: Style, s: Text): Text {
    [QUOTE] + (match style case Js => JsBody(s) case Lua => LuaBody(s)) + [QUOTE]
  }

  // ---------------------------------------------------------------- parser

  datatype Parsed<T> = Fail | Ok(value: T, rest: Text)

  function Unescape(c: int): int {
    if c == QUOTE || c == BACKSLASH || c == 47 then c
    else if c == 98 then 8
    else if c == 102 then 12
    else if c == 110 then 10
    else if c == 114 then 13
    else if c == 116 then 9
    else -1
  }

  // The inside of a string literal, up to and including its closing quote.
  function ParseString(s: Text): (p: Parsed<Text>)
    ensures p.Ok? ==> |p.rest| < |s|
  {
    if s == [] then Fail
    else if s[0] == QUOTE then Ok([], s[1..])
    else if s[0] == BACKSLASH then
      if |s| >= 6 && s[1] == 117 then
        var a, b, c, d := HexValue(s[2]), HexValue(s[3]), HexValue(s[4]), HexValue(s[5]);
        if a < 0 || b < 0 || c < 0 || d < 0 then Fail
        else Prepend(a * 4096 + b * 256 + c * 16 + d, ParseString(s[6..]))
      else if |s| >= 2 && Unescape(s[1]) >= 0 then Prepend(Unescape(s[1]), ParseString(s[2..]))
      else Fail
    else if s[0] < 32 then Fail
    else Prepend(s[0], ParseString(s[1..]))
  }

  function Prepend(c: int, p: Parsed<Text>): Parsed<Text> {
    if p.Ok? then Ok([c] + p.value, p.rest) else Fail
  }

  function ParseValue(s: Text): (p: Parsed<Json>)
    ensures p.Ok? ==> |p.rest| < |s|
    decreases |s|, 1
  {
    if s == [] then Fail
    else if NULL_TEXT <= s then Ok(Null, s[4..])
    else if TRUE_TEXT <= s then Ok(Bool(true), s[4..])
    else if FALSE_TEXT <= s then Ok(Bool(false), s[5..])
    else if s[0] == QUOTE then
      var p := ParseString(s[1..]);
      if p.Ok? then Ok(Str(p.value), p.rest) else Fail
    else if s[0] == LBRACKET then
      if |s| > 1 && s[1] == RBRACKET then Ok(Arr([]), s[2..])
      else
        var p := ParseItems(s[1..]);
        if p.Ok? then Ok(Arr(p.value), p.rest) else Fail
    else if s[0] == LBRACE then
      if |s| > 1 && s[1] == RBRACE then Ok(Obj([]), s[2..])
      else
        var p := ParseFields(s[1..]);
        if p.Ok? then Ok(Obj(p.value), p.rest) else Fail
    else
      var n := NumberLen(s);
      if n > 0 && IsNumber(s[..n]) then Ok(Num(s[..n]), s[n..]) else Fail
  }

  function ParseItems(s: Text): (p: Parsed<seq<Json>>)
    ensures p.Ok? ==> |p.rest| < |s|
    decreases |s|, 2
  {
    var v := ParseValue(s);
    if v.Fail? || v.rest == [] then Fail
    else if v.rest[0] == RBRACKET then Ok([v.value], v.rest[1..])
    else if v.rest[0] == COMMA then
      var more := ParseItems(v.rest[1..]);
      if more.Ok? then Ok([v.value] + more.value, more.rest) else Fail
    else Fail
  }

  function ParseFields(s: Text): (p: Parsed<seq<Field>>)
    ensures p.Ok? ==> |p.rest| < |s|
    decreases |s|, 2
  {
    if s == [] || s[0] != QUOTE then Fail else
    var k := ParseString(s[1..]);
    if k.Fail? || k.rest == [] || k.rest[0] != COLON then Fail else
    var v := ParseValue(k.rest[1..]);
    if v.Fail? || v.rest == [] then Fail
    else if v.rest[0] == RBRACE then Ok([Field(k.value, v.value)], v.rest[1..])
    else if v.rest[0] == COMMA then
      var more := ParseFields(v.rest[1..]);
      if more.Ok? then Ok([Field(k.value, v.value)] + more.value, more.rest) else Fail
    else Fail
  }

  // ---------------------------------------------------------------- printer

  // Values whose numbers are numbers and whose strings the style can carry.
  ghost predicate WellFormed(style: Style, v: Json) {
    match v
    case Null => true
    case Bool(_) => true
    case Num(t) => IsNumber(t)
    case Str(t) => Printable(style, t)
    case Arr(items) => forall x :: x in items ==> WellFormed(style, x)
    case Obj(fields) => forall f :: f in fields ==> Printable(style, f.key) && WellFormed(style, f.value)
  }

  // The text of a value, fields in the order in which they stand.
  function Print(style: Style, v: Json): (t: Text)
    decreases v, 0
  {
    match v
    case Null => NULL_TEXT
    case Bool(b) => if b then TRUE_TEXT else FALSE_TEXT
    case Num(t) => t
    case Str(t) => Quote(style, t)
    case Arr(items) => [LBRACKET] + PrintItems(style, items) + [RBRACKET]
    case Obj(fields) => [LBRACE] + PrintFields(style, fields) + [RBRACE]
  }

  function PrintItems(style: Style, items: seq<Json>): Text
    decreases items, 1
  {
    if items == [] then []
    else Print(style, items[0]) +
         (if |items| == 1 then [] else [COMMA] + PrintItems(style, items[1..]))
  }

  function PrintFields(style: Style, fields: seq<Field>): Text
    decreases fields, 1
  {
    if fields == [] then []
    else Quote(style, fields[0].key) + [COLON] + Print(style, fields[0].value) +
         (if |fields| == 1 then [] else [COMMA] + PrintFields(style, fields[1..]))
  }

  // Comma-separated texts: what join(',') and table.concat build.
  function Join(parts: seq<Text>): Text {
    if parts == [] then []
    else if |parts| == 1 then parts[0]
    else parts[0] + [COMMA] + Join(parts[1..])
  }

  // ---------------------------------------------------------------- round trip

  lemma HexRoundTrip(c: int)
    requires 0 <= c < 0x10000
    ensures var h := Hex4(c);
            forall i :: 0 <= i < 4 ==> HexValue(h[i]) >= 0
    ensures var h := Hex4(c);
            HexValue(h[0]) * 4096 + HexValue(h[1]) * 256 + HexValue(h[2]) * 16 + HexValue(h[3]) == c
  {
    assert c / 256 == (c / 4096) * 16 + c / 256 % 16;
    assert c / 16 == (c / 256) * 16 + c / 16 % 16;
    assert c == (c / 16) * 16 + c % 16;
  }

  lemma {:induction false} HexUnitRoundTrip(c: int, tail: Text)
    requires 0 <= c < 0x10000
    ensures ParseString([BACKSLASH, 117] + Hex4(c) + tail) == Prepend(c, ParseString(tail))
  {
    var whole := [BACKSLASH, 117] + Hex4(c) + tail;
    HexRoundTrip(c);
    assert whole[0] == BACKSLASH && whole[1] == 117 && whole[6..] == tail;
    assert forall i :: 0 <= i < 4 ==> whole[2 + i] == Hex4(c)[i];
  }

  lemma {:induction false} PairRoundTrip(d: int, tail: Text)
    requires d != 117 && Unescape(d) >= 0
    ensures ParseString([BACKSLASH, d] + tail) == Prepend(Unescape(d), ParseString(tail))
  {
    var whole := [BACKSLASH, d] + tail;
    assert whole[0] == BACKSLASH && whole[1] == d && whole[2..] == tail;
  }

  // Reading the text of one unit, whatever follows it.
  lemma {:induction false} JsUnitRoundTrip(c: int, tail: Text)
    requires 0 <= c < 0x10000
    ensures ParseString(JsUnit(c) + tail) == Prepend(c, ParseString(tail))
  {
    var u := JsUnit(c);
    if |u| == 6 {
      HexUnitRoundTrip(c, tail);
    } else if |u| == 2 {
      PairRoundTrip(u[1], tail);
    } else {
      RawUnitRoundTrip(c, tail);
    }
  }

  lemma {:induction false} RawUnitRoundTrip(c: int, tail: Text)
    requires c >= 32 && c != QUOTE && c != BACKSLASH
    ensures ParseString([c] + tail) == Prepend(c, ParseString(tail))
  {
    assert ([c] + tail)[1..] == tail;
  }

  lemma {:induction false} LuaUnitRoundTrip(c: int, tail: Text)
    requires 32 <= c || c in {9, 10, 13}
    ensures ParseString(LuaUnit(c) + tail) == Prepend(c, ParseString(tail))
  {
    var u := LuaUnit(c);
    assert (u + tail)[|u|..] == tail;
    assert forall i :: 0 <= i < |u| ==> (u + tail)[i] == u[i];
  }

  lemma {:induction false} Regroup(a: Text, b: Text, c: Text, d: Text)
    ensures a + b + c + d == a + (b + c + d)
  {
  }

  // A surrogate pair stands for itself.
  lemma {:induction false} SurrogatesRoundTrip(hi: int, lo: int, tail: Text)
    requires High(hi) && Low(lo)
    ensures ParseString([hi, lo] + tail) == Prepend(hi, Prepend(lo, ParseString(tail)))
  {
    RawUnitRoundTrip(lo, tail);
    RawUnitRoundTrip(hi, [lo] + tail);
    assert [hi, lo] + tail == [hi] + ([lo] + tail);
  }

  lemma {:induction false} JsStringRoundTrip(s: Text, rest: Text)
    requires Printable(Js, s)
    ensures ParseString(JsBody(s) + [QUOTE] + rest) == Ok(s, rest)
    decreases |s|
  {
    if s == [] {
      assert (JsBody(s) + [QUOTE] + rest)[1..] == rest;
    } else if |s| > 1 && High(s[0]) && Low(s[1]) {
      JsStringRoundTrip(s[2..], rest);
      JsPairFirst(s, rest);
    } else {
      JsStringRoundTrip(s[1..], rest);
      JsUnitFirst(s, rest);
    }
  }

  lemma {:induction false} JsPairFirst(s: Text, rest: Text)
    requires |s| > 1 && High(s[0]) && Low(s[1])
    requires ParseString(JsBody(s[2..]) + [QUOTE] + rest) == Ok(s[2..], rest)
    ensures ParseString(JsBody(s) + [QUOTE] + rest) == Ok(s, rest)
  {
    assert s == [s[0]] + ([s[1]] + s[2..]);
    Regroup([s[0], s[1]], JsBody(s[2..]), [QUOTE], rest);
    SurrogatesRoundTrip(s[0], s[1], JsBody(s[2..]) + [QUOTE] + rest);
  }

  lemma {:induction false} JsUnitFirst(s: Text, rest: Text)
    requires s != [] && 0 <= s[0] < 0x10000 && !(|s| > 1 && High(s[0]) && Low(s[1]))
    requires ParseString(JsBody(s[1..]) + [QUOTE] + rest) == Ok(s[1..], rest)
    ensures ParseString(JsBody(s) + [QUOTE] + rest) == Ok(s, rest)
  {
    assert s == [s[0]] + s[1..];
    Regroup(JsUnit(s[0]), JsBody(s[1..]), [QUOTE], rest);
    JsUnitRoundTrip(s[0], JsBody(s[1..]) + [QUOTE] + rest);
  }

  lemma {:induction false} LuaStringRoundTrip(s: Text, rest: Text)
    requires Printable(Lua, s)
    ensures ParseString(LuaBody(s) + [QUOTE] + rest) == Ok(s, rest)
  {
    if s == [] {
      assert (LuaBody(s) + [QUOTE] + rest)[1..] == rest;
    } else {
      var tail := LuaBody(s[1..]) + [QUOTE] + rest;
      LuaStringRoundTrip(s[1..], rest);
      LuaUnitRoundTrip(s[0], tail);
      Regroup(LuaUnit(s[0]), LuaBody(s[1..]), [QUOTE], rest);
      assert s == [s[0]] + s[1..];
    }
  }

  lemma {:induction false} QuoteRoundTrip(style: Style, s: Text, rest: Text)
    requires Printable(style, s)
    ensures var t := Quote(style, s) + rest;
            |t| > 0 && t[0] == QUOTE && ParseString(t[1..]) == Ok(s, rest)
  {
    var body := match style case Js => JsBody(s) case Lua => LuaBody(s);
    assert (Quote(style, s) + rest)[1..] == body + [QUOTE] + rest;
    match style
    case Js => JsStringRoundTrip(s, rest);
    case Lua => LuaStringRoundTrip(s, rest);
  }

  // What may follow a value without being read as part of it.
  predicate Delimited(rest: Text) { rest == [] || !NumberUnit(rest[0]) }

  lemma {:induction false} NumberLenExact(t: Text, rest: Text)
    requires (forall i :: 0 <= i < |t| ==> NumberUnit(t[i])) && Delimited(rest)
    ensures NumberLen(t + rest) == |t|
  {
    if t != [] {
      NumberLenExact(t[1..], rest);
      assert (t + rest)[1..] == t[1..] + rest;
    } else {
      assert t + rest == rest;
    }
  }

  lemma {:induction false} NumberRoundTrip(t: Text, rest: Text)
    requires IsNumber(t) && Delimited(rest)
    ensures ParseValue(t + rest) == Ok(Num(t), rest)
  {
    NumberLenExact(t, rest);
    var s := t + rest;
    assert t != [];
    assert s[0] == t[0];
    assert s[..|t|] == t && s[|t|..] == rest;
  }

  // The first unit of a value's text is never a closing bracket or brace.
  lemma PrintHead(style: Style, v: Json)
    requires WellFormed(style, v)
    ensures var t := Print(style, v); t != [] && t[0] != RBRACKET && t[0] != RBRACE
  {
    if v.Num? {
      assert v.digits != [];
    }
  }

  lemma {:induction false} NotAWord(s: Text)
    requires s != [] && s[0] !in {110, 116, 102}
    ensures !(NULL_TEXT <= s) && !(TRUE_TEXT <= s) && !(FALSE_TEXT <= s)
  {
    assert NULL_TEXT[0] == 110 && TRUE_TEXT[0] == 116 && FALSE_TEXT[0] == 102;
  }

  // One unfolding of each parser, on texts named by the caller.
  lemma {:induction false} ParseOpenArray(s: Text)
    requires s != [] && s[0] != RBRACKET
    ensures var p := ParseItems(s);
            ParseValue([LBRACKET] + s) == if p.Ok? then Ok(Arr(p.value), p.rest) else Fail
  {
    assert ([LBRACKET] + s)[1..] == s && ([LBRACKET] + s)[0] == LBRACKET;
    NotAWord([LBRACKET] + s);
  }

  lemma {:induction false} ParseOpenObject(s: Text)
    requires s != [] && s[0] != RBRACE
    ensures var p := ParseFields(s);
            ParseValue([LBRACE] + s) == if p.Ok? then Ok(Obj(p.value), p.rest) else Fail
  {
    assert ([LBRACE] + s)[1..] == s && ([LBRACE] + s)[0] == LBRACE;
    NotAWord([LBRACE] + s);
  }

  lemma {:induction false} ParseEmpty(rest: Text)
    ensures ParseValue([LBRACKET, RBRACKET] + rest) == Ok(Arr([]), rest)
    ensures ParseValue([LBRACE, RBRACE] + rest) == Ok(Obj([]), rest)
  {
    assert ([LBRACKET, RBRACKET] + rest)[2..] == rest && ([LBRACKET, RBRACKET] + rest)[0] == LBRACKET;
    assert ([LBRACE, RBRACE] + rest)[2..] == rest && ([LBRACE, RBRACE] + rest)[0] == LBRACE;
    NotAWord([LBRACKET, RBRACKET] + rest);
    NotAWord([LBRACE, RBRACE] + rest);
  }

  lemma {:induction false} ParseWord(rest: Text)
    ensures ParseValue(NULL_TEXT + rest) == Ok(Null, rest)
    ensures ParseValue(TRUE_TEXT + rest) == Ok(Bool(true), rest)
    ensures ParseValue(FALSE_TEXT + rest) == Ok(Bool(false), rest)
  {
    assert (NULL_TEXT + rest)[4..] == rest && (TRUE_TEXT + rest)[4..] == rest;
    assert (FALSE_TEXT + rest)[5..] == rest;
    assert (TRUE_TEXT + rest)[0] == 116 && (FALSE_TEXT + rest)[0] == 102;
  }

  lemma {:induction false} ParseItemsStep(s: Text, v: Json, after: Text, more: seq<Json>, rest: Text)
    requires ParseValue(s) == Ok(v, after) && after != []
    requires if more == [] then after[0] == RBRACKET && after[1..] == rest
             else after[0] == COMMA && ParseItems(after[1..]) == Ok(more, rest)
    ensures ParseItems(s) == Ok([v] + more, rest)
  {
    if more == [] { assert [v] + more == [v]; }
  }

  lemma {:induction false} ParseFieldsStep(s: Text, f: Field, s': Text, after: Text, more: seq<Field>, rest: Text)
    requires s != [] && s[0] == QUOTE && ParseString(s[1..]) == Ok(f.key, [COLON] + s')
    requires ParseValue(s') == Ok(f.value, after) && after != []
    requires if more == [] then after[0] == RBRACE && after[1..] == rest
             else after[0] == COMMA && ParseFields(after[1..]) == Ok(more, rest)
    ensures ParseFields(s) == Ok([f] + more, rest)
  {
    assert ([COLON] + s')[1..] == s';
    assert f == Field(f.key, f.value);
    if more == [] { assert [f] + more == [f]; }
  }

  // What stands behind the first item or field of a list that closes with `close`.
  function AfterItem(style: Style, items: seq<Json>, rest: Text): Text
    requires items != []
  {
    if |items| == 1 then [RBRACKET] + rest
    else [COMMA] + (PrintItems(style, items[1..]) + [RBRACKET] + rest)
  }

  function AfterField(style: Style, fields: seq<Field>, rest: Text): Text
    requires fields != []
  {
    if |fields| == 1 then [RBRACE] + rest
    else [COMMA] + (PrintFields(style, fields[1..]) + [RBRACE] + rest)
  }

  lemma {:induction false} SplitItems(style: Style, items: seq<Json>, rest: Text)
    requires items != []
    ensures PrintItems(style, items) + [RBRACKET] + rest == Print(style, items[0]) + AfterItem(style, items, rest)
  {
  }

  lemma {:induction false} SplitFields(style: Style, fields: seq<Field>, rest: Text)
    requires fields != []
    ensures PrintFields(style, fields) + [RBRACE] + rest ==
            Quote(style, fields[0].key) + ([COLON] + (Print(style, fields[0].value) + AfterField(style, fields, rest)))
  {
    RegroupField(Quote(style, fields[0].key), Print(style, fields[0].value),
                 if |fields| == 1 then [] else [COMMA] + PrintFields(style, fields[1..]), rest);
    if |fields| > 1 {
      Regroup([COMMA], PrintFields(style, fields[1..]), [RBRACE], rest);
    } else {
      assert [] + [RBRACE] + rest == [RBRACE] + rest;
    }
  }

  lemma {:induction false} RegroupField(k: Text, p: Text, m: Text, rest: Text)
    ensures (k + [COLON] + p + m) + [RBRACE] + rest == k + ([COLON] + (p + (m + [RBRACE] + rest)))
  {
    Regroup(k + [COLON] + p, m, [RBRACE], rest);
    Regroup(k, [COLON], p, m + [RBRACE] + rest);
    assert [COLON] + p + (m + [RBRACE] + rest) == [COLON] + (p + (m + [RBRACE] + rest));
  }

  lemma {:induction false} AfterItemParts(style: Style, items: seq<Json>, rest: Text)
    requires items != []
    ensures var t := AfterItem(style, items, rest);
            t != [] && Delimited(t) && t[0] == (if |items| == 1 then RBRACKET else COMMA) &&
            t[1..] == if |items| == 1 then rest else PrintItems(style, items[1..]) + [RBRACKET] + rest
  {
  }

  lemma {:induction false} AfterFieldParts(style: Style, fields: seq<Field>, rest: Text)
    requires fields != []
    ensures var t := AfterField(style, fields, rest);
            t != [] && Delimited(t) && t[0] == (if |fields| == 1 then RBRACE else COMMA) &&
            t[1..] == if |fields| == 1 then rest else PrintFields(style, fields[1..]) + [RBRACE] + rest
  {
  }

  lemma {:induction false} EmptyRoundTrip(style: Style, rest: Text)
    ensures ParseValue(Print(style, Arr([])) + rest) == Ok(Arr([]), rest)
    ensures ParseValue(Print(style, Obj([])) + rest) == Ok(Obj([]), rest)
  {
    ParseEmpty(rest);
    assert Print(style, Arr([])) == [LBRACKET, RBRACKET] && Print(style, Obj([])) == [LBRACE, RBRACE];
  }

  lemma {:induction false} ArrayRoundTrip(style: Style, items: seq<Json>, rest: Text)
    requires items != [] && ParseItems(PrintItems(style, items) + [RBRACKET] + rest) == Ok(items, rest)
    requires WellFormed(style, items[0])
    ensures ParseValue(Print(style, Arr(items)) + rest) == Ok(Arr(items), rest)
  {
    var s := PrintItems(style, items) + [RBRACKET] + rest;
    SplitItems(style, items, rest);
    PrintHead(style, items[0]);
    ParseOpenArray(s);
    Regroup([LBRACKET], PrintItems(style, items), [RBRACKET], rest);
  }

  lemma {:induction false} ObjectRoundTrip(style: Style, fields: seq<Field>, rest: Text)
    requires fields != [] && ParseFields(PrintFields(style, fields) + [RBRACE] + rest) == Ok(fields, rest)
    ensures ParseValue(Print(style, Obj(fields)) + rest) == Ok(Obj(fields), rest)
  {
    var s := PrintFields(style, fields) + [RBRACE] + rest;
    SplitFields(style, fields, rest);
    ParseOpenObject(s);
    Regroup([LBRACE], PrintFields(style, fields), [RBRACE], rest);
  }

  // Parsing a printed value gives the value back and stops exactly at its end.
  lemma {:induction false} PrintRoundTrip(style: Style, v: Json, rest: Text)
    requires WellFormed(style, v) && Delimited(rest)
    ensures ParseValue(Print(style, v) + rest) == Ok(v, rest)
    decreases v, 0
  {
    match v
    case Null => ParseWord(rest);
    case Bool(b) => ParseWord(rest);
    case Num(t) => NumberRoundTrip(t, rest);
    case Str(t) => QuoteRoundTrip(style, t, rest);
    case Arr(items) =>
      if items == [] {
        EmptyRoundTrip(style, rest);
      } else {
        ItemsRoundTrip(style, items, rest);
        ArrayRoundTrip(style, items, rest);
      }
    case Obj(fields) =>
      if fields == [] {
        EmptyRoundTrip(style, rest);
      } else {
        FieldsRoundTrip(style, fields, rest);
        ObjectRoundTrip(style, fields, rest);
      }
  }

  lemma {:induction false} ItemsRoundTrip(style: Style, items: seq<Json>, rest: Text)
    requires items != [] && forall x :: x in items ==> WellFormed(style, x)
    ensures ParseItems(PrintItems(style, items) + [RBRACKET] + rest) == Ok(items, rest)
    decreases items, 1
  {
    var after := AfterItem(style, items, rest);
    AfterItemParts(style, items, rest);
    PrintRoundTrip(style, items[0], after);
    if |items| > 1 { ItemsRoundTrip(style, items[1..], rest); }
    SplitItems(style, items, rest);
    ParseItemsStep(Print(style, items[0]) + after, items[0], after, items[1..], rest);
    assert items == [items[0]] + items[1..];
  }

  lemma {:induction false} FieldsRoundTrip(style: Style, fields: seq<Field>, rest: Text)
    requires fields != []
    requires forall f :: f in fields ==> Printable(style, f.key) && WellFormed(style, f.value)
    ensures ParseFields(PrintFields(style, fields) + [RBRACE] + rest) == Ok(fields, rest)
    decreases fields, 1
  {
    var f, after := fields[0], AfterField(style, fields, rest);
    AfterFieldParts(style, fields, rest);
    PrintRoundTrip(style, f.value, after);
    if |fields| > 1 { FieldsRoundTrip(style, fields[1..], rest); }
    SplitFields(style, fields, rest);
    FieldStepPrinted(style, f, Print(style, f.value) + after, after, fields[1..], rest);
    assert fields == [f] + fields[1..];
  }

  lemma {:induction false} FieldStepPrinted(style: Style, f: Field, s': Text, after: Text, more: seq<Field>, rest: Text)
    requires Printable(style, f.key) && ParseValue(s') == Ok(f.value, after) && after != []
    requires if more == [] then after[0] == RBRACE && after[1..] == rest
             else after[0] == COMMA && ParseFields(after[1..]) == Ok(more, rest)
    ensures ParseFields(Quote(style, f.key) + ([COLON] + s')) == Ok([f] + more, rest)
  {
    QuoteRoundTrip(style, f.key, [COLON] + s');
    ParseFieldsStep(Quote(style, f.key) + ([COLON] + s'), f, s', after, more, rest);
  }
}
