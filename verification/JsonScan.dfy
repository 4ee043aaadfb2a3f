// The checks that run before or beside JSON decoding: the two nesting scanners
// (C++ host, Python client) and the host's duplicate-key callback.

module JsonScan {
  import opened JsonText

  /** Where a scanner stands with respect to string literals. */
  datatype Quoting = Outside | Inside | Escaped

  function Advance(q: Quoting, c: char): Quoting {
    match q
    case Outside => if c == '"' then Inside else Outside
    case Inside => if c == '\\' then Escaped else if c == '"' then Outside else Inside
    case Escaped => Inside
  }

  /** Nesting after one character.  `floor` is the host's refusal to go below zero. */
  function Nest(q: Quoting, depth: int, c: char, floor: bool): int {
    if q != Outside then depth
    else if c == '{' || c == '[' then depth + 1
    else if (c == '}' || c == ']') && (!floor || depth > 0) then depth - 1
    else depth
  }

  /** Does the nesting ever rise above the limit? */
  predicate TooDeep(text: string, q: Quoting, depth: int, limit: nat, floor: bool) {
    text != "" &&
    var next := Nest(q, depth, text[0], floor);
    (next > depth && next > limit) || TooDeep(text[1..], Advance(q, text[0]), next, limit, floor)
  }

  // ------------------------------------------------------------ the scanners

  /** The host's scanner. */
  method ExceedsJsonDepth(input: string, maximum: nat) returns (exceeds: bool)
    ensures exceeds == TooDeep(input, Outside, 0, maximum, true)
  {
    var inString, escaped, depth := false, false, 0;
    for i := 0 to |input|
      invariant 0 <= depth <= maximum
      invariant escaped ==> inString
      invariant TooDeep(input, Outside, 0, maximum, true)
             == TooDeep(input[i..], if !inString then Outside else if escaped then Escaped else Inside,
                        depth, maximum, true)
    {
      var character := input[i];
      assert input[i..][0] == character && input[i..][1..] == input[i + 1..];
      if inString {
        if escaped {
          escaped := false;
        } else if character == '\\' {
          escaped := true;
        } else if character == '"' {
          inString := false;
        }
        continue;
      }
      if character == '"' {
        inString := true;
      } else if character == '{' || character == '[' {
        depth := depth + 1;
        if depth > maximum {
          return true;
        }
      } else if (character == '}' || character == ']') && depth > 0 {
        depth := depth - 1;
      }
    }
    return false;
  }

  predicate Structural(c: char) {
    c == '"' || c == '\\' || c == '{' || c == '}' || c == '[' || c == ']'
  }

  /** The client's scanner: it visits only structural characters and remembers one escaped position. */
  method ValidateJsonDepth(text: string, maximum: nat) returns (accepted: bool)
    ensures accepted == !TooDeep(text, Outside, 0, maximum, false)
  {
    var depth, quoted, escapedIndex := 0, false, -1;
    for index := 0 to |text|
      invariant depth <= maximum
      invariant escapedIndex <= index
      invariant escapedIndex == index ==> quoted
      invariant TooDeep(text, Outside, 0, maximum, false)
             == TooDeep(text[index..],
                        if !quoted then Outside else if escapedIndex == index then Escaped else Inside,
                        depth, maximum, false)
    {
      var character := text[index];
      assert text[index..][0] == character && text[index..][1..] == text[index + 1..];
      if !Structural(character) || index == escapedIndex {
        continue;
      }
      if quoted {
        if character == '\\' {
          escapedIndex := index + 1;
        } else if character == '"' {
          quoted := false;
        }
      } else if character == '"' {
        quoted := true;
      } else if character == '{' || character == '[' {
        depth := depth + 1;
        if depth > maximum {
          return false;
        }
      } else if character == '}' || character == ']' {
        depth := depth - 1;
      }
    }
    return true;
  }

  // ------------------------------------------------- scanners against trees

  /** Nesting of a value: arrays and objects add one level. */
  function Depth(v: Json): nat
    decreases v, 1
  {
    match v
    case JArray(items) => 1 + ItemsDepth(items)
    case JObject(fields) => 1 + FieldsDepth(fields)
    case _ => 0
  }

  function ItemsDepth(items: seq<Json>): nat
    decreases items, 0
  {
    if items == [] then 0
    else
      var head, tail := Depth(items[0]), ItemsDepth(items[1..]);
      if head > tail then head else tail
  }

  function FieldsDepth(fields: seq<Field>): nat
    decreases fields, 0
  {
    if fields == [] then 0
    else
      var head, tail := Depth(fields[0].value), FieldsDepth(fields[1..]);
      if head > tail then head else tail
  }

  lemma {:induction false} Skip(c: char, x: string, depth: int, limit: nat, floor: bool)
    requires c != '"' && c != '{' && c != '[' && c != '}' && c != ']'
    ensures TooDeep([c] + x, Outside, depth, limit, floor) == TooDeep(x, Outside, depth, limit, floor)
  {
    assert ([c] + x)[1..] == x;
  }

  lemma {:induction false} SkipPlain(s: string, x: string, depth: int, limit: nat, floor: bool)
    requires forall i :: 0 <= i < |s| ==> !Structural(s[i])
    ensures TooDeep(s + x, Outside, depth, limit, floor) == TooDeep(x, Outside, depth, limit, floor)
  {
    if s == "" {
      assert s + x == x;
    } else {
      assert s + x == [s[0]] + (s[1..] + x);
      Skip(s[0], s[1..] + x, depth, limit, floor);
      SkipPlain(s[1..], x, depth, limit, floor);
    }
  }

  lemma {:induction false} OneInside(q: Quoting, c: char, x: string, depth: int, limit: nat, floor: bool)
    requires q != Outside
    ensures TooDeep([c] + x, q, depth, limit, floor) == TooDeep(x, Advance(q, c), depth, limit, floor)
  {
    assert ([c] + x)[1..] == x;
  }

  lemma {:induction false} HexStaysInside(e: string, x: string, depth: int, limit: nat, floor: bool)
    requires |e| == 4 && forall i :: 0 <= i < 4 ==> !Structural(e[i])
    ensures TooDeep(e + x, Inside, depth, limit, floor) == TooDeep(x, Inside, depth, limit, floor)
  {
    assert e + x == [e[0]] + ([e[1]] + ([e[2]] + ([e[3]] + x)));
    OneInside(Inside, e[0], [e[1]] + ([e[2]] + ([e[3]] + x)), depth, limit, floor);
    OneInside(Inside, e[1], [e[2]] + ([e[3]] + x), depth, limit, floor);
    OneInside(Inside, e[2], [e[3]] + x, depth, limit, floor);
    OneInside(Inside, e[3], x, depth, limit, floor);
  }

  lemma {:induction false} EscapeStaysInside(c: char, x: string, depth: int, limit: nat, floor: bool)
    ensures TooDeep(Escape(c) + x, Inside, depth, limit, floor) == TooDeep(x, Inside, depth, limit, floor)
  {
    var e := Escape(c);
    if |e| == 1 {
      OneInside(Inside, e[0], x, depth, limit, floor);
    } else {
      assert e + x == [e[0]] + ([e[1]] + (e[2..] + x));
      OneInside(Inside, e[0], [e[1]] + (e[2..] + x), depth, limit, floor);
      OneInside(Escaped, e[1], e[2..] + x, depth, limit, floor);
      if |e| == 2 {
        assert e[2..] + x == x;
      } else {
        HexStaysInside(e[2..], x, depth, limit, floor);
      }
    }
  }

  /** Whatever a string contains, brackets and quotes included, it adds no nesting. */
  lemma {:induction false} RestScans(s: string, x: string, depth: int, limit: nat, floor: bool)
    ensures TooDeep(Rest(s) + x, Inside, depth, limit, floor) == TooDeep(x, Outside, depth, limit, floor)
  {
    RestText(s, x);
    if s == "" {
      OneInside(Inside, '"', x, depth, limit, floor);
    } else {
      EscapeStaysInside(s[0], Rest(s[1..]) + x, depth, limit, floor);
      RestScans(s[1..], x, depth, limit, floor);
    }
  }

  lemma {:induction false} QuoteScans(s: string, x: string, depth: int, limit: nat, floor: bool)
    ensures TooDeep(Quote(s) + x, Outside, depth, limit, floor) == TooDeep(x, Outside, depth, limit, floor)
  {
    assert (Quote(s) + x)[1..] == Rest(s) + x;
    RestScans(s, x, depth, limit, floor);
  }

  lemma {:induction false} Open(c: char, x: string, depth: nat, limit: nat, floor: bool)
    requires c == '[' || c == '{'
    ensures TooDeep([c] + x, Outside, depth, limit, floor)
         == (depth + 1 > limit || TooDeep(x, Outside, depth + 1, limit, floor))
  {
    assert ([c] + x)[1..] == x;
  }

  lemma {:induction false} Close(c: char, x: string, depth: nat, limit: nat, floor: bool)
    requires c == ']' || c == '}'
    ensures TooDeep([c] + x, Outside, depth + 1, limit, floor) == TooDeep(x, Outside, depth, limit, floor)
  {
    assert ([c] + x)[1..] == x;
  }

  /** Scanning a printed value: rejected within it exactly when its own nesting crosses the limit. */
  lemma {:induction false} PrintScans(v: Json, x: string, depth: nat, limit: nat, floor: bool)
    requires WellFormed(v) && depth <= limit
    ensures TooDeep(Print(v) + x, Outside, depth, limit, floor)
         == (depth + Depth(v) > limit || TooDeep(x, Outside, depth, limit, floor))
    decreases v, 1
  {
    match v
    case JNull => SkipPlain("null", x, depth, limit, floor);
    case JBool(flag) => SkipPlain(Print(v), x, depth, limit, floor);
    case JNumber(token) =>
      forall i | 0 <= i < |token| ensures !Structural(token[i]) { assert NumberChar(token[i]); }
      SkipPlain(token, x, depth, limit, floor);
    case JString(text) => QuoteScans(text, x, depth, limit, floor);
    case JArray(items) =>
      ArrayText(items, x);
      Open('[', PrintItems(items) + ("]" + x), depth, limit, floor);
      if depth < limit {
        ItemsScan(items, x, depth + 1, limit, floor);
        Close(']', x, depth, limit, floor);
      }
    case JObject(fields) =>
      ObjectText(fields, x);
      Open('{', PrintFields(fields) + ("}" + x), depth, limit, floor);
      if depth < limit {
        FieldsScan(fields, x, depth + 1, limit, floor);
        Close('}', x, depth, limit, floor);
      }
  }

  lemma {:induction false} ItemsScan(items: seq<Json>, x: string, depth: nat, limit: nat, floor: bool)
    requires forall i :: 0 <= i < |items| ==> WellFormed(items[i])
    requires depth <= limit
    ensures TooDeep(PrintItems(items) + ("]" + x), Outside, depth, limit, floor)
         == (depth + ItemsDepth(items) > limit || TooDeep("]" + x, Outside, depth, limit, floor))
    decreases items, 0
  {
    if items == [] {
      assert PrintItems(items) + ("]" + x) == "]" + x;
    } else {
      ItemsText(items, x);
      PrintScans(items[0], AfterItem(items, x), depth, limit, floor);
      if |items| > 1 {
        Skip(',', PrintItems(items[1..]) + ("]" + x), depth, limit, floor);
        assert AfterItem(items, x) == [','] + (PrintItems(items[1..]) + ("]" + x));
        ItemsScan(items[1..], x, depth, limit, floor);
      }
    }
  }

  lemma {:induction false} FieldsScan(fields: seq<Field>, x: string, depth: nat, limit: nat, floor: bool)
    requires forall i :: 0 <= i < |fields| ==> WellFormed(fields[i].value)
    requires depth <= limit
    ensures TooDeep(PrintFields(fields) + ("}" + x), Outside, depth, limit, floor)
         == (depth + FieldsDepth(fields) > limit || TooDeep("}" + x, Outside, depth, limit, floor))
    decreases fields, 0
  {
    if fields == [] {
      assert PrintFields(fields) + ("}" + x) == "}" + x;
    } else {
      var rest := AfterField(fields, x);
      FieldsText(fields, x);
      FieldText(fields[0], rest);
      QuoteScans(fields[0].key, ":" + (Print(fields[0].value) + rest), depth, limit, floor);
      Skip(':', Print(fields[0].value) + rest, depth, limit, floor);
      PrintScans(fields[0].value, rest, depth, limit, floor);
      if |fields| > 1 {
        Skip(',', PrintFields(fields[1..]) + ("}" + x), depth, limit, floor);
        assert rest == [','] + (PrintFields(fields[1..]) + ("}" + x));
        FieldsScan(fields[1..], x, depth, limit, floor);
      }
    }
  }

  /** Both scanners measure the nesting of the tree. */
  lemma {:induction false} ScannersMeasureDepth(v: Json, limit: nat)
    requires WellFormed(v)
    ensures TooDeep(Print(v), Outside, 0, limit, true) <==> Depth(v) > limit
    ensures TooDeep(Print(v), Outside, 0, limit, false) <==> Depth(v) > limit
  {
    assert Print(v) + "" == Print(v);
    PrintScans(v, "", 0, limit, true);
    PrintScans(v, "", 0, limit, false);
  }

  /** On any text, JSON or not, the client accepts whatever the host accepts. */
  lemma {:induction false} HostAcceptanceImpliesClientAcceptance(text: string, q: Quoting, host: nat, client: int, limit: nat)
    requires client <= host
    requires !TooDeep(text, q, host, limit, true)
    ensures !TooDeep(text, q, client, limit, false)
  {
    if text != "" {
      HostAcceptanceImpliesClientAcceptance(
        text[1..], Advance(q, text[0]), Nest(q, host, text[0], true), Nest(q, client, text[0], false), limit);
    }
  }

  // ------------------------------------------------- where the scanners differ

  /** The signed nesting after the first `n` characters. */
  function Level(text: string, q: Quoting, n: nat): int
    requires n <= |text|
  {
    if n == 0 then 0 else Nest(q, 0, text[0], false) + Level(text[1..], Advance(q, text[0]), n - 1)
  }

  /** The greatest signed nesting reached. */
  function Peak(text: string, q: Quoting): nat {
    if text == "" then 0
    else
      var p := Nest(q, 0, text[0], false) + Peak(text[1..], Advance(q, text[0]));
      if p < 0 then 0 else p
  }

  /** The greatest rise above any earlier nesting. */
  function Rise(text: string, q: Quoting): nat {
    if text == "" then 0
    else
      var p, r := Peak(text, q), Rise(text[1..], Advance(q, text[0]));
      if p > r then p else r
  }

  lemma {:induction false} PeakIsHighest(text: string, q: Quoting) returns (n: nat)
    ensures n <= |text| && Level(text, q, n) == Peak(text, q)
    ensures forall k :: 0 <= k <= |text| ==> Level(text, q, k) <= Peak(text, q)
  {
    n := 0;
    if text != "" {
      var a, d := Advance(q, text[0]), Nest(q, 0, text[0], false);
      var m := PeakIsHighest(text[1..], a);
      if d + Peak(text[1..], a) >= 0 { n := m + 1; }
      forall k | 0 <= k <= |text| ensures Level(text, q, k) <= Peak(text, q) {
        if k > 0 { assert Level(text[1..], a, k - 1) <= Peak(text[1..], a); }
      }
    }
  }

  lemma {:induction false} RiseIsGreatest(text: string, q: Quoting) returns (m: nat, n: nat)
    ensures m <= n <= |text| && Level(text, q, n) - Level(text, q, m) == Rise(text, q)
    ensures forall j, k :: 0 <= j <= k <= |text| ==> Level(text, q, k) - Level(text, q, j) <= Rise(text, q)
  {
    n := PeakIsHighest(text, q);
    m := 0;
    if text != "" {
      var a := Advance(q, text[0]);
      var i, k := RiseIsGreatest(text[1..], a);
      if Rise(text[1..], a) >= Peak(text, q) { m, n := i + 1, k + 1; }
      forall j, k | 0 <= j <= k <= |text| ensures Level(text, q, k) - Level(text, q, j) <= Rise(text, q) {
        if j > 0 { assert Level(text[1..], a, k - 1) - Level(text[1..], a, j - 1) <= Rise(text[1..], a); }
      }
    }
  }

  /** The client compares the peak with the limit. */
  lemma {:induction false} ClientMeasuresPeak(text: string, q: Quoting, depth: int, limit: nat)
    requires depth <= limit
    ensures TooDeep(text, q, depth, limit, false) <==> depth + Peak(text, q) > limit
  {
    if text != "" {
      var next := Nest(q, depth, text[0], false);
      if next <= limit { ClientMeasuresPeak(text[1..], Advance(q, text[0]), next, limit); }
    }
  }

  /** The host, which never counts below zero, compares the rise with it. */
  lemma {:induction false} HostMeasuresRise(text: string, q: Quoting, depth: nat, limit: nat)
    requires depth <= limit
    ensures TooDeep(text, q, depth, limit, true) <==> depth + Peak(text, q) > limit || Rise(text, q) > limit
  {
    if text != "" {
      var next := Nest(q, depth, text[0], true);
      if next <= limit {
        HostMeasuresRise(text[1..], Advance(q, text[0]), next, limit);
        RiseReachesPeak(text[1..], Advance(q, text[0]));
      }
    }
  }

  lemma {:induction false} RiseReachesPeak(text: string, q: Quoting)
    ensures Peak(text, q) <= Rise(text, q)
  {
  }

  /** The scanners give different verdicts on the text at this limit. */
  predicate Split(text: string, limit: nat) {
    TooDeep(text, Outside, 0, limit, true) != TooDeep(text, Outside, 0, limit, false)
  }

  /** On every text the two verdicts differ at exactly the limits from the peak up to below the rise. */
  lemma {:induction false} ScannersDifferExactly(text: string, limit: nat)
    ensures Split(text, limit) <==> Peak(text, Outside) <= limit < Rise(text, Outside)
  {
    RiseReachesPeak(text, Outside);
    ClientMeasuresPeak(text, Outside, 0, limit);
    HostMeasuresRise(text, Outside, 0, limit);
  }

  /** So they are the same at every limit exactly when the text never rises further than it peaks. */
  lemma {:induction false} ScannersAgreeExactly(text: string)
    ensures (forall limit: nat :: !Split(text, limit)) <==> Rise(text, Outside) == Peak(text, Outside)
  {
    RiseReachesPeak(text, Outside);
    forall limit: nat ensures Split(text, limit) <==> Peak(text, Outside) <= limit < Rise(text, Outside) {
      ScannersDifferExactly(text, limit);
    }
    assert Split(text, Peak(text, Outside)) <==> Peak(text, Outside) < Rise(text, Outside);
  }

  /** No closing bracket outside a string finds the nesting at zero. */
  predicate Balanced(text: string, q: Quoting, depth: int) {
    text == "" ||
    (Nest(q, depth, text[0], false) >= 0 && Balanced(text[1..], Advance(q, text[0]), Nest(q, depth, text[0], false)))
  }

  /** On a text without a stray closing bracket the verdicts are the same ... */
  lemma {:induction false} BalancedTextsAgree(text: string, q: Quoting, depth: nat, limit: nat)
    requires Balanced(text, q, depth)
    ensures TooDeep(text, q, depth, limit, true) == TooDeep(text, q, depth, limit, false)
  {
    if text != "" {
      assert Nest(q, depth, text[0], true) == Nest(q, depth, text[0], false);
      BalancedTextsAgree(text[1..], Advance(q, text[0]), Nest(q, depth, text[0], true), limit);
    }
  }

  function Opening(n: nat): string {
    if n == 0 then "" else "[" + Opening(n - 1)
  }

  lemma {:induction false} OpeningRises(n: nat)
    ensures Peak(Opening(n), Outside) == n && Rise(Opening(n), Outside) == n
  {
    if n > 0 {
      assert Opening(n)[1..] == Opening(n - 1);
      OpeningRises(n - 1);
    }
  }

  /** ... and a stray one can split them at any limit, 64 too: the host refuses this text, the client does not. */
  lemma {:induction false} StrayBracketSplitsTheScanners(limit: nat)
    ensures var text := "]" + Opening(limit + 1);
            TooDeep(text, Outside, 0, limit, true) && !TooDeep(text, Outside, 0, limit, false)
  {
    var text := "]" + Opening(limit + 1);
    assert text[1..] == Opening(limit + 1);
    OpeningRises(limit + 1);
    ClientMeasuresPeak(text, Outside, 0, limit);
    HostMeasuresRise(text, Outside, 0, limit);
  }

  // ---------------------------------------------------------- duplicate keys

  datatype ParseEvent = ObjectStart | ObjectEnd | ArrayStart | ArrayEnd | Key(key: string) | Scalar

  /** The order in which a streaming parser reports a value. */
  function Events(v: Json): seq<ParseEvent>
    decreases v, 1
  {
    match v
    case JArray(items) => [ArrayStart] + ItemEvents(items) + [ArrayEnd]
    case JObject(fields) => [ObjectStart] + FieldEvents(fields) + [ObjectEnd]
    case _ => [Scalar]
  }

  function ItemEvents(items: seq<Json>): seq<ParseEvent>
    decreases items, 0
  {
    if items == [] then [] else Events(items[0]) + ItemEvents(items[1..])
  }

  function FieldEvents(fields: seq<Field>): seq<ParseEvent>
    decreases fields, 0
  {
    if fields == [] then []
    else [Key(fields[0].key)] + Events(fields[0].value) + FieldEvents(fields[1..])
  }

  /** Some object, at any level, names a key twice. */
  ghost predicate RepeatsKey(v: Json)
    decreases v
  {
    match v
    case JArray(items) => exists i :: 0 <= i < |items| && RepeatsKey(items[i])
    case JObject(fields) =>
      || (exists i, j :: 0 <= i < j < |fields| && fields[i].key == fields[j].key)
      || (exists i :: 0 <= i < |fields| && RepeatsKey(fields[i].value))
    case _ => false
  }

  datatype KeyState = KeyState(found: bool, objectKeys: seq<set<string>>)

  function Feed(s: KeyState, e: ParseEvent): KeyState {
    var depth := |s.objectKeys|;
    match e
    case ObjectStart => s.(objectKeys := s.objectKeys + [{}])
    case Key(key) =>
      if depth == 0 then s.(found := true)
      else
        var top := s.objectKeys[depth - 1];
        KeyState(s.found || key in top, s.objectKeys[depth - 1 := top + {key}])
    case ObjectEnd => if depth == 0 then s else s.(objectKeys := s.objectKeys[..depth - 1])
    case _ => s
  }

  function FeedAll(s: KeyState, events: seq<ParseEvent>): KeyState
    decreases |events|
  {
    if events == [] then s else FeedAll(Feed(s, events[0]), events[1..])
  }

  lemma {:induction false} FeedAllConcat(s: KeyState, a: seq<ParseEvent>, b: seq<ParseEvent>)
    ensures FeedAll(s, a + b) == FeedAll(FeedAll(s, a), b)
    decreases a
  {
    if a == [] {
      assert a + b == b;
    } else {
      assert (a + b)[1..] == a[1..] + b;
      FeedAllConcat(Feed(s, a[0]), a[1..], b);
    }
  }

  /** The stack of key sets comes back unchanged; the flag records exactly the value's own repetitions. */
  lemma {:induction false} ValueFeeds(v: Json, s: KeyState)
    ensures FeedAll(s, Events(v)) == s.(found := s.found || RepeatsKey(v))
    decreases v, 1
  {
    match v
    case JArray(items) =>
      var body := ItemEvents(items);
      assert FeedAll(s, [ArrayStart]) == s by { assert FeedAll(Feed(s, ArrayStart), []) == s; }
      FeedAllConcat(s, [ArrayStart], body + [ArrayEnd]);
      assert Events(v) == [ArrayStart] + (body + [ArrayEnd]);
      ItemsFeed(items, s);
      FeedAllConcat(s, body, [ArrayEnd]);
      var t := FeedAll(s, body);
      assert FeedAll(t, [ArrayEnd]) == t by { assert FeedAll(Feed(t, ArrayEnd), []) == t; }
    case JObject(fields) =>
      var body := FieldEvents(fields);
      var inner := s.(objectKeys := s.objectKeys + [{}]);
      assert Events(v) == [ObjectStart] + (body + [ObjectEnd]);
      assert FeedAll(s, [ObjectStart]) == inner by { assert FeedAll(Feed(s, ObjectStart), []) == inner; }
      FeedAllConcat(s, [ObjectStart], body + [ObjectEnd]);
      FieldsFeed(fields, inner, s.objectKeys, {});
      FeedAllConcat(inner, body, [ObjectEnd]);
      var t := FeedAll(inner, body);
      assert FeedAll(t, [ObjectEnd]) == Feed(t, ObjectEnd);
      assert t.objectKeys[..|t.objectKeys| - 1] == s.objectKeys;
    case _ =>
      assert FeedAll(s, [Scalar]) == FeedAll(Feed(s, Scalar), []);
  }

  lemma {:induction false} ItemsFeed(items: seq<Json>, s: KeyState)
    ensures FeedAll(s, ItemEvents(items))
         == s.(found := s.found || exists i :: 0 <= i < |items| && RepeatsKey(items[i]))
    decreases items, 0
  {
    if items != [] {
      ValueFeeds(items[0], s);
      FeedAllConcat(s, Events(items[0]), ItemEvents(items[1..]));
      ItemsFeed(items[1..], s.(found := s.found || RepeatsKey(items[0])));
      var tail := items[1..];
      assert (exists i :: 0 <= i < |items| && RepeatsKey(items[i]))
         <==> RepeatsKey(items[0]) || (exists i :: 0 <= i < |tail| && RepeatsKey(tail[i])) by {
        if j :| 0 <= j < |tail| && RepeatsKey(tail[j]) { assert RepeatsKey(items[j + 1]); }
        if i :| 0 <= i < |items| && RepeatsKey(items[i]) { assert i == 0 || RepeatsKey(tail[i - 1]); }
      }
    }
  }

  ghost predicate Clashes(fields: seq<Field>, seen: set<string>) {
    || (exists i :: 0 <= i < |fields| && fields[i].key in seen)
    || (exists i, j :: 0 <= i < j < |fields| && fields[i].key == fields[j].key)
    || (exists i :: 0 <= i < |fields| && RepeatsKey(fields[i].value))
  }

  function KeysOf(fields: seq<Field>): set<string> {
    set i | 0 <= i < |fields| :: fields[i].key
  }

  lemma {:induction false} ClashesUnfolds(fields: seq<Field>, seen: set<string>)
    requires fields != []
    ensures Clashes(fields, seen)
       <==> fields[0].key in seen || RepeatsKey(fields[0].value)
            || Clashes(fields[1..], seen + {fields[0].key})
  {
    var tail, more := fields[1..], seen + {fields[0].key};
    assert forall i :: 0 <= i < |tail| ==> tail[i] == fields[i + 1];
    if Clashes(tail, more) {
      if i :| 0 <= i < |tail| && tail[i].key in more {
        assert fields[i + 1].key == tail[i].key;
      } else if i, j :| 0 <= i < j < |tail| && tail[i].key == tail[j].key {
        assert fields[i + 1].key == fields[j + 1].key;
      } else {
        var i :| 0 <= i < |tail| && RepeatsKey(tail[i].value);
        assert RepeatsKey(fields[i + 1].value);
      }
    }
    if Clashes(fields, seen) && fields[0].key !in seen && !RepeatsKey(fields[0].value) {
      if i :| 0 <= i < |fields| && fields[i].key in seen {
        assert tail[i - 1].key in more;
      } else if i, j :| 0 <= i < j < |fields| && fields[i].key == fields[j].key {
        if i == 0 { assert tail[j - 1].key in more; } else { assert tail[i - 1].key == tail[j - 1].key; }
      } else {
        var i :| 0 <= i < |fields| && RepeatsKey(fields[i].value);
        assert RepeatsKey(tail[i - 1].value);
      }
    }
  }

  lemma {:induction false} FieldsFeed(fields: seq<Field>, s: KeyState, below: seq<set<string>>, seen: set<string>)
    requires s.objectKeys == below + [seen]
    ensures FeedAll(s, FieldEvents(fields))
         == KeyState(s.found || Clashes(fields, seen), below + [seen + KeysOf(fields)])
    decreases fields, 0
  {
    if fields == [] {
      assert KeysOf(fields) == {} && seen + {} == seen;
    } else {
      var f, tail := fields[0], fields[1..];
      var keyed := KeyState(s.found || f.key in seen, below + [seen + {f.key}]);
      assert Feed(s, Key(f.key)) == keyed;
      assert FieldEvents(fields) == [Key(f.key)] + (Events(f.value) + FieldEvents(tail));
      FeedAllConcat(keyed, Events(f.value), FieldEvents(tail));
      ValueFeeds(f.value, keyed);
      FieldsFeed(tail, keyed.(found := keyed.found || RepeatsKey(f.value)), below, seen + {f.key});
      ClashesUnfolds(fields, seen);
      assert KeysOf(fields) == {f.key} + KeysOf(tail) by {
        forall k | k in KeysOf(fields) ensures k in {f.key} + KeysOf(tail) {
          var i :| 0 <= i < |fields| && fields[i].key == k;
          assert i == 0 || tail[i - 1].key == k;
        }
        forall k | k in KeysOf(tail) ensures k in KeysOf(fields) {
          var i :| 0 <= i < |tail| && tail[i].key == k;
          assert fields[i + 1].key == k;
        }
      }
      assert seen + {f.key} + KeysOf(tail) == seen + KeysOf(fields);
    }
  }

  /** The callback, run over a parser's events: it flags a value exactly when some object repeats a key. */
  method DuplicateKeyFound(ghost v: Json, events: seq<ParseEvent>) returns (duplicateFound: bool)
    requires events == Events(v)
    ensures duplicateFound <==> RepeatsKey(v)
  {
    var objectKeys: seq<set<string>> := [];
    duplicateFound := false;
    ghost var start := KeyState(false, []);
    for i := 0 to |events|
      invariant FeedAll(start, events) == FeedAll(KeyState(duplicateFound, objectKeys), events[i..])
    {
      assert events[i..][0] == events[i] && events[i..][1..] == events[i + 1..];
      match events[i] {
        case ObjectStart =>
          objectKeys := objectKeys + [{}];
        case Key(key) =>
          if objectKeys == [] {
            duplicateFound := true;
          } else {
            var last := |objectKeys| - 1;
            if key in objectKeys[last] {
              duplicateFound := true;
            }
            objectKeys := objectKeys[last := objectKeys[last] + {key}];
          }
        case ObjectEnd =>
          if objectKeys != [] {
            objectKeys := objectKeys[..|objectKeys| - 1];
          }
        case _ =>
      }
    }
    ValueFeeds(v, start);
  }
}
