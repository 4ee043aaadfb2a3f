// JSON values and the compact text that the native host writes for them.
//
// The host serialises with `dump()`: no white space, control characters escaped,
// everything else copied.  A number is kept as the token the serialiser chose, so
// nothing here depends on how binary floating point is rendered.

module JsonText {

  datatype Json =
    | JNull
    | JBool(flag: bool)
    | JNumber(token: string)
    | JString(text: string)
    | JArray(items: seq<Json>)
    | JObject(fields: seq<Field>)

  datatype Field = Field(key: string, value: Json)

  predicate NumberChar(c: char) {
    '0' <= c <= '9' || c == '-' || c == '+' || c == '.' || c == 'e' || c == 'E'
  }

  /** A number token is non-empty and starts like a number; nothing more is needed. */
  predicate NumberToken(token: string) {
    && token != ""
    && ('0' <= token[0] <= '9' || token[0] == '-')
    && forall i :: 0 <= i < |token| ==> NumberChar(token[i])
  }

  ghost predicate WellFormed(v: Json)
    decreases v
  {
    match v
    case JNumber(token) => NumberToken(token)
    case JArray(items) => forall i :: 0 <= i < |items| ==> WellFormed(items[i])
    case JObject(fields) => forall i :: 0 <= i < |fields| ==> WellFormed(fields[i].value)
    case _ => true
  }

  // ---------------------------------------------------------------- strings

  function HexDigit(n: nat): (c: char)
    requires n < 16
    ensures n < 10 ==> '0' <= c <= '9'
    ensures n >= 10 ==> 'a' <= c <= 'f'
  {
    if n < 10 then '0' + (n as char) else 'a' + ((n - 10) as char)
  }

  /** One character of a string literal, as section 7 of RFC 8259 requires and `dump()` does. */
  function Escape(c: char): (e: string)
    ensures e != ""
  {
    if c == '"' then "\\\""
    else if c == '\\' then "\\\\"
    else if c == 8 as char then "\\b"
    else if c == 12 as char then "\\f"
    else if c == '\n' then "\\n"
    else if c == '\r' then "\\r"
    else if c == '\t' then "\\t"
    else if c < ' ' then "\\u00" + [HexDigit(c as int / 16), HexDigit(c as int % 16)]
    else [c]
  }

  /** The characters after the opening quote, closing quote included. */
  function Rest(s: string): (t: string)
    ensures t != ""
  {
    if s == "" then "\"" else Escape(s[0]) + Rest(s[1..])
  }

  function Quote(s: string): (t: string)
    ensures |t| >= 2 && t[0] == '"'
  {
    "\"" + Rest(s)
  }

  // ----------------------------------------------------------------- values

  function Print(v: Json): string
    decreases v, 1
  {
    match v
    case JNull => "null"
    case JBool(flag) => if flag then "true" else "false"
    case JNumber(token) => token
    case JString(text) => Quote(text)
    case JArray(items) => "[" + PrintItems(items) + "]"
    case JObject(fields) => "{" + PrintFields(fields) + "}"
  }

  function PrintItems(items: seq<Json>): string
    decreases items, 0
  {
    if items == [] then ""
    else if |items| == 1 then Print(items[0])
    else Print(items[0]) + "," + PrintItems(items[1..])
  }

  function PrintFields(fields: seq<Field>): string
    decreases fields, 0
  {
    if fields == [] then ""
    else if |fields| == 1 then PrintField(fields[0])
    else PrintField(fields[0]) + "," + PrintFields(fields[1..])
  }

  function PrintField(f: Field): string
    decreases f, 0
  {
    Quote(f.key) + ":" + Print(f.value)
  }

  // ------------------------------------------------------ unique readability

  /** Text that may legally follow a value: nothing, or a character no value contains outside a string. */
  predicate Follows(t: string) {
    t == "" || t[0] == ',' || t[0] == ']' || t[0] == '}' || t[0] == '\n'
  }

  lemma {:induction false} EscapeUnique(c: char, d: char, x: string, y: string)
    requires Escape(c) + x == Escape(d) + y
    ensures c == d && x == y
  {
    var l, r := Escape(c) + x, Escape(d) + y;
    assert l[0] == Escape(c)[0] && r[0] == Escape(d)[0];
    if Escape(c)[0] != '\\' {
      assert c == d;
    } else {
      assert l[1] == Escape(c)[1] && r[1] == Escape(d)[1];
      if Escape(c)[1] == 'u' {
        assert |Escape(c)| == 6 && |Escape(d)| == 6;
        assert l[4] == Escape(c)[4] && r[4] == Escape(d)[4];
        assert l[5] == Escape(c)[5] && r[5] == Escape(d)[5];
        HexUnique(c as int / 16, d as int / 16);
        HexUnique(c as int % 16, d as int % 16);
        assert c as int == d as int;
      }
    }
    assert c == d;
    assert x == l[|Escape(c)|..] && y == r[|Escape(d)|..];
  }

  lemma {:induction false} HexUnique(m: nat, n: nat)
    requires m < 16 && n < 16 && HexDigit(m) == HexDigit(n)
    ensures m == n
  {
  }

  lemma {:induction false} RestText(s: string, x: string)
    ensures (Rest(s) + x)[0] == '"' <==> s == ""
    ensures s == "" ==> Rest(s) + x == "\"" + x
    ensures s != "" ==> Rest(s) + x == Escape(s[0]) + (Rest(s[1..]) + x)
  {
  }

  lemma {:induction false} RestUnique(s: string, t: string, x: string, y: string)
    requires Rest(s) + x == Rest(t) + y
    ensures s == t && x == y
  {
    RestText(s, x);
    RestText(t, y);
    if s == "" {
      CutHead("\"", "\"", x, y);
    } else {
      EscapeUnique(s[0], t[0], Rest(s[1..]) + x, Rest(t[1..]) + y);
      RestUnique(s[1..], t[1..], x, y);
      assert s == [s[0]] + s[1..] && t == [t[0]] + t[1..];
    }
  }

  lemma {:induction false} QuoteUnique(s: string, t: string, x: string, y: string)
    requires Quote(s) + x == Quote(t) + y
    ensures s == t && x == y
  {
    var l, r := Quote(s) + x, Quote(t) + y;
    assert l[1..] == Rest(s) + x && r[1..] == Rest(t) + y;
    RestUnique(s, t, x, y);
  }

  /** How many number characters a text starts with. */
  function NumberLength(t: string): nat {
    if t == "" || !NumberChar(t[0]) then 0 else 1 + NumberLength(t[1..])
  }

  lemma {:induction false} NumberLengthOf(s: string, x: string)
    requires forall i :: 0 <= i < |s| ==> NumberChar(s[i])
    requires Follows(x)
    ensures NumberLength(s + x) == |s|
  {
    if s == "" {
      assert s + x == x;
    } else {
      assert (s + x)[1..] == s[1..] + x;
      NumberLengthOf(s[1..], x);
    }
  }

  lemma {:induction false} NumberUnique(s: string, t: string, x: string, y: string)
    requires NumberToken(s) && NumberToken(t) && Follows(x) && Follows(y)
    requires s + x == t + y
    ensures s == t && x == y
  {
    NumberLengthOf(s, x);
    NumberLengthOf(t, y);
    assert (s + x)[..|s|] == s && (t + y)[..|t|] == t;
    assert (s + x)[|s|..] == x && (t + y)[|t|..] == y;
  }

  /** The first character of a printed value. */
  function Head(v: Json): (c: char)
    requires WellFormed(v)
    ensures Print(v) != "" && Print(v)[0] == c && c != ']' && c != '}' && c != ','
  {
    match v
    case JNull => 'n'
    case JBool(flag) => if flag then 't' else 'f'
    case JNumber(token) => token[0]
    case JString(_) => '"'
    case JArray(_) => '['
    case JObject(_) => '{'
  }

  lemma {:induction false} HeadTellsKind(a: Json, b: Json)
    requires WellFormed(a) && WellFormed(b) && Head(a) == Head(b)
    ensures a.JNull? == b.JNull? && a.JBool? == b.JBool? && a.JNumber? == b.JNumber?
    ensures a.JString? == b.JString? && a.JArray? == b.JArray? && a.JObject? == b.JObject?
    ensures a.JBool? ==> a.flag == b.flag
  {
  }

  lemma {:induction false} CutHead(a: string, b: string, x: string, y: string)
    requires |a| == |b| && a + x == b + y
    ensures a == b && x == y
  {
    assert (a + x)[..|a|] == a && (b + y)[..|b|] == b;
    assert (a + x)[|a|..] == x && (b + y)[|b|..] == y;
  }

  /** Two printed values followed by legal continuations agree only if values and continuations agree. */
  lemma {:induction false} PrintUnique(a: Json, b: Json, x: string, y: string)
    requires WellFormed(a) && WellFormed(b) && Follows(x) && Follows(y)
    requires Print(a) + x == Print(b) + y
    ensures a == b && x == y
    decreases a, 1
  {
    assert (Print(a) + x)[0] == Head(a) && (Print(b) + y)[0] == Head(b);
    HeadTellsKind(a, b);
    match a
    case JNull => CutHead("null", "null", x, y);
    case JBool(flag) => CutHead(Print(a), Print(b), x, y);
    case JNumber(token) => NumberUnique(token, b.token, x, y);
    case JString(text) => QuoteUnique(text, b.text, x, y);
    case JArray(items) =>
      ArrayText(items, x);
      ArrayText(b.items, y);
      CutHead("[", "[", PrintItems(items) + ("]" + x), PrintItems(b.items) + ("]" + y));
      ItemsUnique(items, b.items, x, y);
    case JObject(fields) =>
      ObjectText(fields, x);
      ObjectText(b.fields, y);
      CutHead("{", "{", PrintFields(fields) + ("}" + x), PrintFields(b.fields) + ("}" + y));
      FieldsUnique(fields, b.fields, x, y);
  }

  lemma {:induction false} ArrayText(items: seq<Json>, x: string)
    ensures Print(JArray(items)) + x == "[" + (PrintItems(items) + ("]" + x))
  {
  }

  lemma {:induction false} ObjectText(fields: seq<Field>, x: string)
    ensures Print(JObject(fields)) + x == "{" + (PrintFields(fields) + ("}" + x))
  {
  }

  /** What follows the first item of an array. */
  function AfterItem(items: seq<Json>, x: string): (t: string)
    requires items != []
    ensures t != "" && (t[0] == ']' || t[0] == ',')
    ensures t[0] == ']' <==> |items| == 1
    ensures t[1..] == if |items| == 1 then x else PrintItems(items[1..]) + ("]" + x)
  {
    if |items| == 1 then "]" + x else "," + (PrintItems(items[1..]) + ("]" + x))
  }

  lemma {:induction false} ItemsText(items: seq<Json>, x: string)
    requires items != [] && WellFormed(items[0])
    ensures PrintItems(items) + ("]" + x) == Print(items[0]) + AfterItem(items, x)
    ensures (PrintItems(items) + ("]" + x))[0] == Head(items[0])
  {
    var first := Print(items[0]);
    if |items| == 1 {
      assert PrintItems(items) == first;
    } else {
      var rest := PrintItems(items[1..]);
      assert PrintItems(items) == first + "," + rest;
      assert first + "," + rest + ("]" + x) == first + ("," + (rest + ("]" + x)));
    }
  }

  lemma {:induction false} ItemsUnique(s: seq<Json>, t: seq<Json>, x: string, y: string)
    requires forall i :: 0 <= i < |s| ==> WellFormed(s[i])
    requires forall i :: 0 <= i < |t| ==> WellFormed(t[i])
    requires PrintItems(s) + ("]" + x) == PrintItems(t) + ("]" + y)
    ensures s == t && x == y
    decreases s, 0
  {
    if s != [] { ItemsText(s, x); }
    if t != [] { ItemsText(t, y); }
    assert s == [] <==> (PrintItems(s) + ("]" + x))[0] == ']';
    assert t == [] <==> (PrintItems(t) + ("]" + y))[0] == ']';
    if s == [] {
      assert PrintItems(s) + ("]" + x) == "]" + x && PrintItems(t) + ("]" + y) == "]" + y;
      CutHead("]", "]", x, y);
    } else {
      var u, v := AfterItem(s, x), AfterItem(t, y);
      PrintUnique(s[0], t[0], u, v);
      assert s == [s[0]] + s[1..] && t == [t[0]] + t[1..];
      if |s| > 1 {
        ItemsUnique(s[1..], t[1..], x, y);
      }
    }
  }

  /** What follows the first member of an object. */
  function AfterField(fields: seq<Field>, x: string): (t: string)
    requires fields != []
    ensures t != "" && (t[0] == '}' || t[0] == ',')
    ensures t[0] == '}' <==> |fields| == 1
    ensures t[1..] == if |fields| == 1 then x else PrintFields(fields[1..]) + ("}" + x)
  {
    if |fields| == 1 then "}" + x else "," + (PrintFields(fields[1..]) + ("}" + x))
  }

  lemma {:induction false} FieldsText(fields: seq<Field>, x: string)
    requires fields != []
    ensures PrintFields(fields) + ("}" + x) == PrintField(fields[0]) + AfterField(fields, x)
    ensures (PrintFields(fields) + ("}" + x))[0] == '"'
  {
    var f := PrintField(fields[0]);
    assert f[0] == '"';
    if |fields| == 1 {
      assert PrintFields(fields) == f;
    } else {
      var rest := PrintFields(fields[1..]);
      assert PrintFields(fields) == f + "," + rest;
      assert f + "," + rest + ("}" + x) == f + ("," + (rest + ("}" + x)));
    }
  }

  lemma {:induction false} FieldsUnique(s: seq<Field>, t: seq<Field>, x: string, y: string)
    requires forall i :: 0 <= i < |s| ==> WellFormed(s[i].value)
    requires forall i :: 0 <= i < |t| ==> WellFormed(t[i].value)
    requires PrintFields(s) + ("}" + x) == PrintFields(t) + ("}" + y)
    ensures s == t && x == y
    decreases s, 0
  {
    if s != [] { FieldsText(s, x); }
    if t != [] { FieldsText(t, y); }
    assert s == [] <==> (PrintFields(s) + ("}" + x))[0] == '}';
    assert t == [] <==> (PrintFields(t) + ("}" + y))[0] == '}';
    if s == [] {
      assert PrintFields(s) + ("}" + x) == "}" + x && PrintFields(t) + ("}" + y) == "}" + y;
      CutHead("}", "}", x, y);
    } else {
      var u, v := AfterField(s, x), AfterField(t, y);
      FieldUnique(s[0], t[0], u, v);
      assert s == [s[0]] + s[1..] && t == [t[0]] + t[1..];
      if |s| > 1 {
        FieldsUnique(s[1..], t[1..], x, y);
      }
    }
  }

  lemma {:induction false} FieldText(f: Field, x: string)
    ensures PrintField(f) + x == Quote(f.key) + (":" + (Print(f.value) + x))
  {
  }

  lemma {:induction false} FieldUnique(f: Field, g: Field, x: string, y: string)
    requires WellFormed(f.value) && WellFormed(g.value) && Follows(x) && Follows(y)
    requires PrintField(f) + x == PrintField(g) + y
    ensures f == g && x == y
    decreases f, 0
  {
    var p, q := ":" + (Print(f.value) + x), ":" + (Print(g.value) + y);
    FieldText(f, x);
    FieldText(g, y);
    QuoteUnique(f.key, g.key, p, q);
    CutHead(":", ":", Print(f.value) + x, Print(g.value) + y);
    PrintUnique(f.value, g.value, x, y);
  }
}
