/**
 * `JSON.parse` as the ECMA-404 JSON grammar defines it: one value with
 * optional white space (space, tab, line feed, carriage return) around it
 * and nothing else; no trailing commas, no single quotes, no comments.
 * One difference: a `\u` escape of an unpaired surrogate cannot be a
 * Dafny `char`, so it is rejected here although the grammar accepts it.
 */
module Json {
  import opened Wrappers
  import opened Text

  /** A parsed value; a number keeps its source text. */
  datatype Json =
    | JNull
    | JBool(b: bool)
    | JNumber(text: string)
    | JString(s: string)
    | JArray(items: seq<Json>)
    | JObject(members: seq<(string, Json)>)

  predicate IsWs(c: char) {
    c == ' ' || c == '\t' || c == '\n' || c == '\r'
  }

  function SkipWs(s: string, i: nat): (j: nat)
    requires i <= |s|
    ensures i <= j <= |s| && (j < |s| ==> !IsWs(s[j]))
    ensures forall k :: i <= k < j ==> IsWs(s[k])
    decreases |s| - i
  {
    if i < |s| && IsWs(s[i]) then SkipWs(s, i + 1) else i
  }

  function Hex4(s: string, i: nat): (r: Option<nat>)
    ensures r.Some? ==> i + 4 <= |s| && r.value < 0x10000
  {
    if i + 4 <= |s| && IsHexDigit(s[i]) && IsHexDigit(s[i + 1]) && IsHexDigit(s[i + 2]) && IsHexDigit(s[i + 3]) then
      Some(((HexDigitValue(s[i]) * 16 + HexDigitValue(s[i + 1])) * 16 + HexDigitValue(s[i + 2])) * 16 + HexDigitValue(s[i + 3]))
    else None
  }

  /** The character of the escape whose letter is at `i` (just after the backslash). */
  function ParseEscape(s: string, i: nat): (r: Option<(char, nat)>)
    ensures r.Some? ==> i < r.value.1 <= |s|
  {
    if i >= |s| then None
    else match s[i]
      case '"' => Some(('"', i + 1))
      case '\\' => Some(('\\', i + 1))
      case '/' => Some(('/', i + 1))
      case 'b' => Some((8 as char, i + 1))
      case 'f' => Some((12 as char, i + 1))
      case 'n' => Some(('\n', i + 1))
      case 'r' => Some(('\r', i + 1))
      case 't' => Some(('\t', i + 1))
      case 'u' =>
        (match Hex4(s, i + 1)
         case None => None
         case Some(n) =>
           if n < 0xD800 || 0xE000 <= n then Some((n as char, i + 5))
           else if n < 0xDC00 && i + 7 <= |s| && s[i + 5] == '\\' && s[i + 6] == 'u' then
             (match Hex4(s, i + 7)
              case Some(lo) =>
                if 0xDC00 <= lo < 0xE000 then Some(((0x10000 + (n - 0xD800) * 0x400 + (lo - 0xDC00)) as char, i + 11))
                else None
              case None => None)
           else None)
      case _ => None
  }

  /** The characters of a string literal from `i` up to its closing quote, which is consumed. */
  function ParseChars(s: string, i: nat, acc: string): (r: Option<(string, nat)>)
    requires i <= |s|
    ensures r.Some? ==> i < r.value.1 <= |s|
    decreases |s| - i
  {
    if i == |s| then None
    else if s[i] == '"' then Some((acc, i + 1))
    else if s[i] == '\\' then
      match ParseEscape(s, i + 1)
      case None => None
      case Some((c, j)) => ParseChars(s, j, acc + [c])
    else if s[i] as int < 0x20 then None
    else ParseChars(s, i + 1, acc + [s[i]])
  }

  function ParseString(s: string, i: nat): (r: Option<(string, nat)>)
    requires i <= |s|
    ensures r.Some? ==> i < r.value.1 <= |s|
  {
    if i < |s| && s[i] == '"' then ParseChars(s, i + 1, []) else None
  }

  /** The end of a run of decimal digits starting at `i`. */
  function Digits(s: string, i: nat): (j: nat)
    requires i <= |s|
    ensures i <= j <= |s| && (j < |s| ==> !IsDigit(s[j]))
    ensures forall k :: i <= k < j ==> IsDigit(s[k])
    decreases |s| - i
  {
    if i < |s| && IsDigit(s[i]) then Digits(s, i + 1) else i
  }

  /** `-? (0 | [1-9][0-9]*) (. [0-9]+)? ([eE] [+-]? [0-9]+)?`: the end of the number at `i`. */
  function NumberEnd(s: string, i: nat): (r: Option<nat>)
    requires i <= |s|
    ensures r.Some? ==> i < r.value <= |s|
  {
    var a := if i < |s| && s[i] == '-' then i + 1 else i;
    if a >= |s| || !IsDigit(s[a]) then None
    else
      var b := if s[a] == '0' then a + 1 else Digits(s, a);
      var c :=
        if b < |s| && s[b] == '.' then
          (var d := Digits(s, b + 1); if d == b + 1 then None else Some(d))
        else Some(b);
      match c
      case None => None
      case Some(c) =>
        if c < |s| && (s[c] == 'e' || s[c] == 'E') then
          var e := if c + 1 < |s| && (s[c + 1] == '+' || s[c + 1] == '-') then c + 2 else c + 1;
          var f := Digits(s, e);
          if f == e then None else Some(f)
        else Some(c)
  }

  predicate LiteralAt(s: string, i: nat, lit: string) {
    i + |lit| <= |s| && s[i..i + |lit|] == lit
  }

  /** A value starting exactly at `i`, and the position after it. */
  function ParseValue(s: string, i: nat): (r: Option<(Json, nat)>)
    requires i <= |s|
    ensures r.Some? ==> i < r.value.1 <= |s|
    decreases |s| - i, 0
  {
    if i == |s| then None
    else if s[i] == '[' then
      var j := SkipWs(s, i + 1);
      if j < |s| && s[j] == ']' then Some((JArray([]), j + 1)) else ParseElements(s, j, [])
    else if s[i] == '{' then
      var j := SkipWs(s, i + 1);
      if j < |s| && s[j] == '}' then Some((JObject([]), j + 1)) else ParseMembers(s, j, [])
    else if s[i] == '"' then
      match ParseString(s, i)
      case None => None
      case Some((t, j)) => Some((JString(t), j))
    else if LiteralAt(s, i, "true") then Some((JBool(true), i + 4))
    else if LiteralAt(s, i, "false") then Some((JBool(false), i + 5))
    else if LiteralAt(s, i, "null") then Some((JNull, i + 4))
    else
      match NumberEnd(s, i)
      case None => None
      case Some(j) => Some((JNumber(s[i..j]), j))
  }

  /** Array elements from `j`: a value, then `,` and more elements or the closing `]`. */
  function ParseElements(s: string, j: nat, acc: seq<Json>): (r: Option<(Json, nat)>)
    requires j <= |s|
    ensures r.Some? ==> j < r.value.1 <= |s|
    decreases |s| - j, 1
  {
    match ParseValue(s, j)
    case None => None
    case Some((v, k)) => ElementsAfter(s, k, acc + [v])
  }

  /** What follows an array element ending at `k`: `,` and more elements, or the closing `]`. */
  function ElementsAfter(s: string, k: nat, items: seq<Json>): (r: Option<(Json, nat)>)
    requires k <= |s|
    ensures r.Some? ==> k < r.value.1 <= |s|
    decreases |s| - k, 2
  {
    var k' := SkipWs(s, k);
    if k' < |s| && s[k'] == ',' then ParseElements(s, SkipWs(s, k' + 1), items)
    else if k' < |s| && s[k'] == ']' then Some((JArray(items), k' + 1))
    else None
  }

  /** Object members from `j`: a string key, `:`, a value, then `,` and more members or the closing `}`. */
  function ParseMembers(s: string, j: nat, acc: seq<(string, Json)>): (r: Option<(Json, nat)>)
    requires j <= |s|
    ensures r.Some? ==> j < r.value.1 <= |s|
    decreases |s| - j, 1
  {
    match ParseString(s, j)
    case None => None
    case Some((key, k)) =>
      var c := SkipWs(s, k);
      if c < |s| && s[c] == ':' then
        match ParseValue(s, SkipWs(s, c + 1))
        case None => None
        case Some((v, m)) =>
          var m' := SkipWs(s, m);
          if m' < |s| && s[m'] == ',' then ParseMembers(s, SkipWs(s, m' + 1), acc + [(key, v)])
          else if m' < |s| && s[m'] == '}' then Some((JObject(acc + [(key, v)]), m' + 1))
          else None
      else None
  }

  /** `JSON.parse(s)`; None is the SyntaxError it throws. */
  function Parse(s: string): (r: Option<Json>) {
    match ParseValue(s, SkipWs(s, 0))
    case None => None
    case Some((v, j)) => if SkipWs(s, j) == |s| then Some(v) else None
  }

  // ---------------------------------------------------------------------
  // The answer format the tagging prompt asks for: an array of names.

  /** A name that needs no escape inside a string literal. */
  predicate Plain(n: string) {
    forall k :: 0 <= k < |n| ==> n[k] != '"' && n[k] != '\\' && n[k] as int >= 0x20
  }

  function Quote(n: string): string {
    "\"" + n + "\""
  }

  /** The names written as `["a", "b"]`. */
  function RenderNames(names: seq<string>): string {
    if names == [] then "[]" else "[" + RenderItems(names) + "]"
  }

  function RenderItems(names: seq<string>): string
    requires names != []
  {
    if |names| == 1 then Quote(names[0]) else Quote(names[0]) + ", " + RenderItems(names[1..])
  }

  /** The names as JSON strings. */
  function Strings(names: seq<string>): (r: seq<Json>)
    ensures |r| == |names|
  {
    if names == [] then [] else [JString(names[0])] + Strings(names[1..])
  }

  lemma {:induction false} ParseCharsPlain(s: string, i: nat, acc: string, n: string)
    requires Plain(n) && i + |n| < |s| && s[i..i + |n|] == n && s[i + |n|] == '"'
    ensures ParseChars(s, i, acc) == Some((acc + n, i + |n| + 1))
    decreases |n|
  {
    if n == [] {
      assert acc + n == acc;
    } else {
      assert s[i] == n[0];
      assert s[i + 1..i + 1 + |n[1..]|] == n[1..];
      ParseCharsPlain(s, i + 1, acc + [n[0]], n[1..]);
      assert acc + [n[0]] + n[1..] == acc + n;
    }
  }

  /** A window of `s` that holds `w` holds each slice of `w` at the matching offset. */
  lemma SubSlice(s: string, j: nat, w: string, a: nat, b: nat)
    requires j + |w| <= |s| && s[j..j + |w|] == w && a <= b <= |w|
    ensures s[j + a..j + b] == w[a..b]
    ensures a < |w| ==> s[j + a] == w[a]
  {
    forall k | a <= k < |w|
      ensures s[j + k] == w[k]
    {
      assert s[j..j + |w|][k] == s[j + k];
    }
    assert |s[j + a..j + b]| == b - a;
    forall k | 0 <= k < b - a
      ensures s[j + a..j + b][k] == w[a..b][k]
    {
      assert s[j + a..j + b][k] == s[j + a + k];
    }
  }

  /** An element followed by `, ` and more elements. */
  lemma ElementsStep(s: string, j: nat, acc: seq<Json>, v: Json, e: nat, r: Option<(Json, nat)>)
    requires j <= |s| && ParseValue(s, j) == Some((v, e))
    requires e + 2 < |s| && s[e] == ',' && s[e + 1] == ' ' && s[e + 2] == '"'
    requires ParseElements(s, e + 2, acc + [v]) == r
    ensures ParseElements(s, j, acc) == r
  {
    AfterComma(s, e, acc + [v]);
  }

  lemma AfterComma(s: string, e: nat, items: seq<Json>)
    requires e + 2 < |s| && s[e] == ',' && s[e + 1] == ' ' && s[e + 2] == '"'
    ensures ElementsAfter(s, e, items) == ParseElements(s, e + 2, items)
  {
    assert SkipWs(s, e) == e;
    assert SkipWs(s, e + 2) == e + 2;
    assert SkipWs(s, e + 1) == e + 2;
  }

  /** The last element, followed by `]`. */
  lemma ElementsLast(s: string, j: nat, acc: seq<Json>, v: Json, e: nat)
    requires j <= |s| && ParseValue(s, j) == Some((v, e))
    requires e < |s| && s[e] == ']'
    ensures ParseElements(s, j, acc) == Some((JArray(acc + [v]), e + 1))
  {
    assert SkipWs(s, e) == e;
  }

  /** A quoted plain name parses back to itself. */
  lemma ParseQuoted(s: string, i: nat, n: string)
    requires Plain(n) && i + |n| + 2 <= |s| && s[i..i + |n| + 2] == Quote(n)
    ensures ParseString(s, i) == Some((n, i + |n| + 2))
    ensures ParseValue(s, i) == Some((JString(n), i + |n| + 2))
  {
    var q := Quote(n);
    assert q == ['"'] + n + ['"'];
    assert q[1..1 + |n|] == n;
    SubSlice(s, i, q, 0, 1);
    SubSlice(s, i, q, 1, 1 + |n|);
    SubSlice(s, i, q, 1 + |n|, 2 + |n|);
    ParseCharsPlain(s, i + 1, [], n);
    assert [] + n == n;
  }

  lemma RenderItemsFirst(names: seq<string>)
    requires names != []
    ensures |RenderItems(names)| >= |Quote(names[0])|
    ensures RenderItems(names)[..|Quote(names[0])|] == Quote(names[0])
    ensures RenderItems(names)[0] == '"'
  {
    var q := Quote(names[0]);
    if |names| > 1 {
      assert RenderItems(names) == q + (", " + RenderItems(names[1..]));
    }
  }

  predicate AllPlain(names: seq<string>) {
    forall k :: 0 <= k < |names| ==> Plain(names[k])
  }

  /**
   * Rendered items at `j`, followed by `]`, parse as array elements: the
   * names as strings after `acc`, ending just past the bracket.
   */
  lemma {:induction false} ElementsOfRendered(s: string, j: nat, acc: seq<Json>, names: seq<string>)
    requires names != [] && AllPlain(names)
    requires j + |RenderItems(names)| < |s| && s[j..j + |RenderItems(names)|] == RenderItems(names)
    requires s[j + |RenderItems(names)|] == ']'
    ensures ElementsYield(s, j, acc, Some((JArray(acc + Strings(names)), j + |RenderItems(names)| + 1)))
    decreases |names|, 1
  {
    if |names| == 1 {
      ElementsOfOne(s, j, acc, names);
    } else {
      ElementsOfMany(s, j, acc, names);
    }
  }

  /** Several rendered items: the first name, then the rest from just past its `, `. */
  lemma {:induction false} ElementsOfMany(s: string, j: nat, acc: seq<Json>, names: seq<string>)
    requires |names| > 1 && AllPlain(names)
    requires j + |RenderItems(names)| < |s| && s[j..j + |RenderItems(names)|] == RenderItems(names)
    requires s[j + |RenderItems(names)|] == ']'
    ensures ElementsYield(s, j, acc, Some((JArray(acc + Strings(names)), j + |RenderItems(names)| + 1)))
    decreases |names|, 0
  {
    var q := Quote(names[0]);
    var v := JString(names[0]);
    var r := Some((JArray(acc + Strings(names)), j + |RenderItems(names)| + 1));
    ItemsTail(s, j, names);
    AllPlainTail(names);
    var e := j + |q| + 2;
    ElementsOfRendered(s, e, acc + [v], names[1..]);
    StringsCons(acc, names);
    QuotedStep(s, j, acc, names[0], r);
  }

  /** Array elements from `j` parse as `r`. */
  predicate ElementsYield(s: string, j: nat, acc: seq<Json>, r: Option<(Json, nat)>)
    requires j <= |s|
  {
    ParseElements(s, j, acc) == r
  }

  lemma StringsCons(acc: seq<Json>, names: seq<string>)
    requires names != []
    ensures acc + [JString(names[0])] + Strings(names[1..]) == acc + Strings(names)
  {
  }

  lemma ElementsOfOne(s: string, j: nat, acc: seq<Json>, names: seq<string>)
    requires |names| == 1 && AllPlain(names)
    requires j + |RenderItems(names)| < |s| && s[j..j + |RenderItems(names)|] == RenderItems(names)
    requires s[j + |RenderItems(names)|] == ']'
    ensures ElementsYield(s, j, acc, Some((JArray(acc + Strings(names)), j + |RenderItems(names)| + 1)))
  {
    ItemsOne(s, j, names);
    QuotedLast(s, j, acc, names[0]);
    assert acc + [JString(names[0])] == acc + Strings(names);
  }

  /** A quoted name followed by `, ` and more elements. */
  lemma QuotedStep(s: string, j: nat, acc: seq<Json>, n: string, r: Option<(Json, nat)>)
    requires Plain(n) && j + |Quote(n)| + 2 < |s| && s[j..j + |Quote(n)|] == Quote(n)
    requires s[j + |Quote(n)|] == ',' && s[j + |Quote(n)| + 1] == ' ' && s[j + |Quote(n)| + 2] == '"'
    requires ElementsYield(s, j + |Quote(n)| + 2, acc + [JString(n)], r)
    ensures ElementsYield(s, j, acc, r)
  {
    ParseQuoted(s, j, n);
    ElementsStep(s, j, acc, JString(n), j + |Quote(n)|, r);
  }

  /** A quoted name followed by `]`. */
  lemma QuotedLast(s: string, j: nat, acc: seq<Json>, n: string)
    requires Plain(n) && j + |Quote(n)| < |s| && s[j..j + |Quote(n)|] == Quote(n) && s[j + |Quote(n)|] == ']'
    ensures ElementsYield(s, j, acc, Some((JArray(acc + [JString(n)]), j + |Quote(n)| + 1)))
  {
    ParseQuoted(s, j, n);
    ElementsLast(s, j, acc, JString(n), j + |Quote(n)|);
  }

  /** A single rendered item is the quoted name. */
  lemma ItemsOne(s: string, j: nat, names: seq<string>)
    requires |names| == 1
    requires j + |RenderItems(names)| <= |s| && s[j..j + |RenderItems(names)|] == RenderItems(names)
    ensures |RenderItems(names)| == |Quote(names[0])| && s[j..j + |Quote(names[0])|] == Quote(names[0])
  {
  }

  /** The first of several rendered items is a quoted name followed by `, ` and the rest. */
  lemma ItemsTail(s: string, j: nat, names: seq<string>)
    requires |names| > 1
    requires j + |RenderItems(names)| <= |s| && s[j..j + |RenderItems(names)|] == RenderItems(names)
    ensures var q, rest := Quote(names[0]), RenderItems(names[1..]);
      && j + |q| + 2 + |rest| == j + |RenderItems(names)|
      && s[j + |q| + 2..j + |q| + 2 + |rest|] == rest
      && s[j..j + |q|] == q
      && s[j + |q|] == ',' && s[j + |q| + 1] == ' ' && s[j + |q| + 2] == '"'
  {
    var q, rest := Quote(names[0]), RenderItems(names[1..]);
    RenderItemsFirst(names[1..]);
    assert RenderItems(names) == q + ", " + rest;
    WindowSplit(s, j, q, rest);
  }

  /** A window holding `q + ", " + rest` holds `q`, the comma, the space and `rest` in turn. */
  lemma WindowSplit(s: string, j: nat, q: string, rest: string)
    requires j + |q| + 2 + |rest| <= |s| && s[j..j + |q| + 2 + |rest|] == q + ", " + rest
    ensures s[j..j + |q|] == q && s[j + |q|] == ',' && s[j + |q| + 1] == ' '
    ensures s[j + |q| + 2..j + |q| + 2 + |rest|] == rest
    ensures |rest| > 0 ==> s[j + |q| + 2] == rest[0]
  {
    var w := q + ", " + rest;
    forall k | 0 <= k < |w|
      ensures s[j + k] == w[k]
    {
      assert s[j..j + |w|][k] == s[j + k];
    }
    assert w[|q|] == ',' && w[|q| + 1] == ' ';
    forall k | 0 <= k < |q|
      ensures s[j..j + |q|][k] == q[k]
    {
      assert w[k] == q[k];
    }
    forall k | 0 <= k < |rest|
      ensures s[j + |q| + 2..j + |q| + 2 + |rest|][k] == rest[k]
    {
      assert w[|q| + 2 + k] == rest[k];
    }
  }

  lemma AllPlainTail(names: seq<string>)
    requires names != [] && AllPlain(names)
    ensures Plain(names[0]) && AllPlain(names[1..])
  {
    assert forall k :: 0 <= k < |names[1..]| ==> names[1..][k] == names[k + 1];
  }

  /** The answer format round-trips: rendering plain names and parsing the text gives them back. */
  lemma ParseRenderNames(names: seq<string>)
    requires AllPlain(names)
    ensures Parse(RenderNames(names)) == Some(JArray(Strings(names)))
  {
    var s := RenderNames(names);
    assert SkipWs(s, 0) == 0;
    if names == [] {
      assert SkipWs(s, 1) == 1;
      assert Strings(names) == [];
    } else {
      var items := RenderItems(names);
      assert s == "[" + items + "]";
      assert s[1..1 + |items|] == items;
      RenderItemsFirst(names);
      assert s[1] == '"';
      assert SkipWs(s, 1) == 1;
      ElementsOfRendered(s, 1, [], names);
      assert SkipWs(s, |s|) == |s|;
      assert [] + Strings(names) == Strings(names);
    }
  }

  /** Prose is not JSON. */
  lemma ProseIsNotJson()
    ensures Parse("Rage") == None
  {
    var a := "Rage";
    assert SkipWs(a, 0) == 0;
    assert !LiteralAt(a, 0, "true") && !LiteralAt(a, 0, "false") && !LiteralAt(a, 0, "null");
    assert NumberEnd(a, 0) == None;
  }

  /** A trailing comma is not JSON. */
  lemma TrailingCommaIsNotJson()
    ensures Parse("[\"Rage\",]") == None
  {
    var b := "[\"Rage\",]";
    assert SkipWs(b, 0) == 0;
    assert SkipWs(b, 1) == 1;
    assert b[1..7] == Quote("Rage");
    ParseQuoted(b, 1, "Rage");
    assert SkipWs(b, 7) == 7 && b[7] == ',';
    assert SkipWs(b, 8) == 8;
    BracketIsNoValue(b, 8);
    assert ParseElements(b, 1, []) == None;
  }

  /** A closing bracket does not start a value. */
  lemma BracketIsNoValue(s: string, i: nat)
    requires i < |s| && s[i] == ']'
    ensures ParseValue(s, i) == None
  {
    NotLiteral(s, i, "true");
    NotLiteral(s, i, "false");
    NotLiteral(s, i, "null");
    assert NumberEnd(s, i) == None;
  }

  /** Single quotes are not JSON. */
  lemma SingleQuotesAreNotJson()
    ensures Parse("['Rage']") == None
  {
    var c := "['Rage']";
    assert SkipWs(c, 0) == 0;
    assert SkipWs(c, 1) == 1;
    SingleQuoteIsNoValue(c, 1);
    assert ParseElements(c, 1, []) == None;
  }

  /** A single quote does not start a value. */
  lemma SingleQuoteIsNoValue(s: string, i: nat)
    requires i < |s| && s[i] == '\''
    ensures ParseValue(s, i) == None
  {
    NotLiteral(s, i, "true");
    NotLiteral(s, i, "false");
    NotLiteral(s, i, "null");
    assert NumberEnd(s, i) == None;
  }

  /** Text whose first character differs from a literal's does not hold that literal. */
  lemma NotLiteral(s: string, i: nat, lit: string)
    requires 0 < |lit| && i < |s| && s[i] != lit[0]
    ensures !LiteralAt(s, i, lit)
  {
    if i + |lit| <= |s| {
      assert s[i..i + |lit|][0] == s[i];
    }
  }
}
