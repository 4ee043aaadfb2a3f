// Capture configuration: the host's parser, the Python constructor, and the
// set of point ranges both are meant to accept.

module CaptureConfig {
  import opened Common

  const MAX_EXPECTED_POINTS := 1_000_000
  const MAX_RANGES := 256

  datatype Mode = StaticSet | EventSequence | Observation
  datatype Source = Solicited | Unsolicited

  datatype PointRange = PointRange(kind: string, start: nat, stop: nat)

  datatype Manifest = Manifest(
    generator: string, generatorVersion: string, scenarioId: string,
    seed: nat, startSequence: nat, endSequence: nat, eventTotal: nat,
    sha256: string, matchRule: string)

  datatype Config = Config(
    mode: Mode, sources: seq<Source>, ranges: seq<PointRange>, manifest: Option<Manifest>,
    sampleLimit: nat, queueCapacity: nat, durationMs: nat)

  // ------------------------------------------------------------ wire values

  datatype RawRange = RawRange(kind: string, start: int, stop: int)

  datatype RawManifest = RawManifest(
    generator: string, generatorVersion: string, scenarioId: string,
    seed: int, startSequence: int, endSequence: int, eventTotal: int,
    sha256: string, matchRule: string)

  datatype Expected = PointRanges(ranges: seq<RawRange>) | EventManifest(manifest: RawManifest)

  /** `params` of `capture.begin`, once every field has its JSON type. */
  datatype Params = Params(
    mode: string, sources: seq<string>, expected: Option<Expected>,
    sampleLimit: Option<int>, queueCapacity: Option<int>, durationMs: Option<int>)

  datatype Rejection =
    | InvalidLength | InvalidEnum | InvalidToken | DuplicateValue | OutOfRange | InvalidRange
    | ExpectedSetTooLarge | OverlappingRanges | MissingField | UnknownField | UnexpectedForMode
    | InconsistentSequenceRange | InvalidSha256

  datatype Parse<+T> = Parsed(value: T) | Rejected(reason: Rejection)

  // ---------------------------------------------------------------- tokens

  predicate PrintableToken(s: string, maximum: nat) {
    0 < |s| <= maximum && forall i :: 0 <= i < |s| ==> '!' <= s[i] <= '~'
  }

  const KINDS: set<string> := {
    "analog_command_event", "analog_input", "analog_output_status", "binary_command_event",
    "binary_input", "binary_output_status", "counter", "double_bit_binary_input",
    "frozen_counter", "octet_string", "time_and_interval"
  }

  predicate HexDigit(c: char) { '0' <= c <= '9' || 'a' <= c <= 'f' || 'A' <= c <= 'F' }

  predicate IsSha256(s: string) {
    |s| == 64 && forall i :: 0 <= i < |s| ==> HexDigit(s[i])
  }

  function LowerChar(c: char): char {
    if 'A' <= c <= 'F' then c - 'A' + 'a' else c
  }

  function Lower(s: string): (t: string)
    ensures |t| == |s|
    ensures forall i :: 0 <= i < |s| ==> t[i] == LowerChar(s[i])
  {
    seq(|s|, i requires 0 <= i < |s| => LowerChar(s[i]))
  }

  predicate LowerSha256(s: string) {
    |s| == 64 && forall i :: 0 <= i < |s| ==> '0' <= s[i] <= '9' || 'a' <= s[i] <= 'f'
  }

  lemma {:induction false} LowerIsLower(s: string)
    requires IsSha256(s)
    ensures LowerSha256(Lower(s)) && IsSha256(Lower(s)) && Lower(Lower(s)) == Lower(s)
  {
    forall i | 0 <= i < |s| ensures '0' <= Lower(s)[i] <= '9' || 'a' <= Lower(s)[i] <= 'f' {
      assert HexDigit(s[i]);
    }
  }

  // ----------------------------------------------------------- point ranges

  predicate ValidRange(r: RawRange) {
    r.kind in KINDS && 0 <= r.start <= r.stop <= 65535
  }

  predicate InRange(r: PointRange, kind: string, index: nat) {
    r.kind == kind && r.start <= index <= r.stop
  }

  /** No point lies in two ranges. */
  ghost predicate Disjoint(rs: seq<PointRange>) {
    forall i, j, kind, index :: 0 <= i < j < |rs| && InRange(rs[i], kind, index) ==> !InRange(rs[j], kind, index)
  }

  function Size(r: PointRange): nat
    requires r.start <= r.stop
  {
    r.stop - r.start + 1
  }

  predicate WellOrdered(rs: seq<PointRange>) {
    forall i :: 0 <= i < |rs| ==> rs[i].start <= rs[i].stop
  }

  function Total(rs: seq<PointRange>): nat
    requires WellOrdered(rs)
  {
    if rs == [] then 0 else Total(rs[..|rs| - 1]) + Size(rs[|rs| - 1])
  }

  function Typed(raw: seq<RawRange>): (rs: seq<PointRange>)
    requires forall i :: 0 <= i < |raw| ==> ValidRange(raw[i])
    ensures WellOrdered(rs) && |rs| == |raw|
  {
    seq(|raw|, i requires 0 <= i < |raw| && ValidRange(raw[i]) =>
      PointRange(raw[i].kind, raw[i].start, raw[i].stop))
  }

  /** What both sides are meant to accept. */
  ghost predicate ValidSet(raw: seq<RawRange>) {
    && 0 < |raw| <= MAX_RANGES
    && (forall i :: 0 <= i < |raw| ==> ValidRange(raw[i]))
    && Total(Typed(raw)) <= MAX_EXPECTED_POINTS
    && Disjoint(Typed(raw))
  }

  // ---------------------------------------------------------------- sorting

  predicate LexLess(a: string, b: string) {
    b != "" && (a == "" || a[0] < b[0] || (a[0] == b[0] && LexLess(a[1..], b[1..])))
  }

  lemma {:induction false} LexTotal(a: string, b: string)
    ensures LexLess(a, b) || a == b || LexLess(b, a)
    ensures !(LexLess(a, b) && LexLess(b, a)) && !LexLess(a, a)
  {
    if a != "" { LexTotal(a[1..], a[1..]); }
    if a != "" && b != "" {
      LexTotal(a[1..], b[1..]);
      if a[0] == b[0] && a[1..] == b[1..] {
        assert a == [a[0]] + a[1..] && b == [b[0]] + b[1..];
      }
    }
  }

  lemma {:induction false} LexTransitive(a: string, b: string, c: string)
    requires LexLess(a, b) && LexLess(b, c)
    ensures LexLess(a, c)
  {
    if a != "" && a[0] == b[0] == c[0] {
      LexTransitive(a[1..], b[1..], c[1..]);
    }
  }

  /** The comparator of both sorts: kind, then start. */
  predicate Before(a: PointRange, b: PointRange) {
    LexLess(a.kind, b.kind) || (a.kind == b.kind && a.start < b.start)
  }

  lemma {:induction false} NotAfterTransitive(a: PointRange, b: PointRange, c: PointRange)
    requires !Before(b, a) && !Before(c, b)
    ensures !Before(c, a)
    ensures a.kind == c.kind ==> b.kind == a.kind && a.start <= b.start <= c.start
  {
    LexTotal(a.kind, b.kind);
    LexTotal(b.kind, c.kind);
    LexTotal(a.kind, c.kind);
    if LexLess(a.kind, b.kind) && LexLess(b.kind, c.kind) {
      LexTransitive(a.kind, b.kind, c.kind);
    }
  }

  ghost predicate Sorted(rs: seq<PointRange>) {
    InOrder(rs, Before)
  }

  /** A sort by kind and start. */
  function SortRanges(rs: seq<PointRange>): seq<PointRange> {
    Sort(rs, Before)
  }

  lemma {:induction false} SortRangesSorts(rs: seq<PointRange>)
    ensures Sorted(SortRanges(rs))
  {
    forall a: PointRange, b: PointRange | Before(a, b) ensures !Before(b, a) { LexTotal(a.kind, b.kind); }
    SortSorts(rs, Before);
  }

  /** The neighbour test of both sides. */
  predicate NeighboursOverlap(rs: seq<PointRange>) {
    exists i :: 0 < i < |rs| && rs[i - 1].kind == rs[i].kind && rs[i].start <= rs[i - 1].stop
  }

  lemma {:induction false} SortedReaches(rs: seq<PointRange>, i: nat, j: nat)
    requires Sorted(rs) && WellOrdered(rs) && !NeighboursOverlap(rs) && i < j < |rs|
    ensures !Before(rs[j], rs[i])
    ensures rs[i].kind == rs[j].kind ==> rs[i].stop < rs[j].start
    decreases j - i
  {
    if i + 1 < j {
      SortedReaches(rs, i, j - 1);
      NotAfterTransitive(rs[i], rs[j - 1], rs[j]);
    }
  }

  /** On a sorted list, comparing neighbours decides disjointness. */
  lemma {:induction false} NeighboursDecide(rs: seq<PointRange>)
    requires Sorted(rs) && WellOrdered(rs)
    ensures NeighboursOverlap(rs) <==> !Disjoint(rs)
  {
    if NeighboursOverlap(rs) {
      var i :| 0 < i < |rs| && rs[i - 1].kind == rs[i].kind && rs[i].start <= rs[i - 1].stop;
      LexTotal(rs[i].kind, rs[i].kind);
      assert InRange(rs[i - 1], rs[i].kind, rs[i].start) && InRange(rs[i], rs[i].kind, rs[i].start);
    } else {
      forall i, j, kind, index | 0 <= i < j < |rs| && InRange(rs[i], kind, index)
        ensures !InRange(rs[j], kind, index)
      {
        SortedReaches(rs, i, j);
      }
    }
  }

  // ----------------------------------------- order does not matter to a set

  /** How many ranges hold a point.  Disjoint means at most one, whatever the order. */
  function Holders(rs: seq<PointRange>, kind: string, index: nat): nat {
    if rs == [] then 0
    else (if InRange(rs[0], kind, index) then 1 else 0) + Holders(rs[1..], kind, index)
  }

  ghost predicate AtMostOneHolder(rs: seq<PointRange>) {
    forall kind, index :: Holders(rs, kind, index) <= 1
  }

  lemma {:induction false} HoldersOfMember(rs: seq<PointRange>, i: nat, kind: string, index: nat)
    requires i < |rs| && InRange(rs[i], kind, index)
    ensures Holders(rs, kind, index) >= 1
  {
    if i > 0 { HoldersOfMember(rs[1..], i - 1, kind, index); }
  }

  lemma {:induction false} TwoHolders(rs: seq<PointRange>, i: nat, j: nat, kind: string, index: nat)
    requires i < j < |rs| && InRange(rs[i], kind, index) && InRange(rs[j], kind, index)
    ensures Holders(rs, kind, index) >= 2
  {
    if i == 0 { HoldersOfMember(rs[1..], j - 1, kind, index); }
    else { TwoHolders(rs[1..], i - 1, j - 1, kind, index); }
  }

  lemma {:induction false} DisjointMeansOneHolder(rs: seq<PointRange>)
    ensures Disjoint(rs) <==> AtMostOneHolder(rs)
  {
    if Disjoint(rs) {
      forall kind, index ensures Holders(rs, kind, index) <= 1 { OneHolder(rs, kind, index); }
    } else {
      var i, j, kind, index :|
        0 <= i < j < |rs| && InRange(rs[i], kind, index) && InRange(rs[j], kind, index);
      TwoHolders(rs, i, j, kind, index);
    }
  }

  lemma {:induction false} NoHolder(rs: seq<PointRange>, kind: string, index: nat)
    requires forall i :: 0 <= i < |rs| ==> !InRange(rs[i], kind, index)
    ensures Holders(rs, kind, index) == 0
  {
    if rs != [] { NoHolder(rs[1..], kind, index); }
  }

  lemma {:induction false} OneHolder(rs: seq<PointRange>, kind: string, index: nat)
    requires Disjoint(rs)
    ensures Holders(rs, kind, index) <= 1
  {
    if rs != [] {
      var tail := rs[1..];
      assert forall i :: 0 <= i < |tail| ==> tail[i] == rs[i + 1];
      if InRange(rs[0], kind, index) {
        NoHolder(tail, kind, index);
      } else {
        OneHolder(tail, kind, index);
      }
    }
  }

  lemma {:induction false} InsertKeepsHolders(r: PointRange, rs: seq<PointRange>, kind: string, index: nat)
    ensures Holders(Insert(r, rs, Before), kind, index) == Holders([r] + rs, kind, index)
  {
    assert ([r] + rs)[1..] == rs;
    if rs != [] && !Before(r, rs[0]) {
      InsertKeepsHolders(r, rs[1..], kind, index);
      assert ([r] + rs[1..])[1..] == rs[1..];
    }
  }

  lemma {:induction false} SortKeepsHolders(rs: seq<PointRange>, kind: string, index: nat)
    ensures Holders(SortRanges(rs), kind, index) == Holders(rs, kind, index)
  {
    if rs != [] {
      SortKeepsHolders(rs[1..], kind, index);
      InsertKeepsHolders(rs[0], SortRanges(rs[1..]), kind, index);
      assert ([rs[0]] + SortRanges(rs[1..]))[1..] == SortRanges(rs[1..]);
    }
  }

  lemma {:induction false} SortKeepsDisjointness(rs: seq<PointRange>)
    ensures Disjoint(SortRanges(rs)) <==> Disjoint(rs)
  {
    var t := SortRanges(rs);
    DisjointMeansOneHolder(rs);
    DisjointMeansOneHolder(t);
    forall kind, index ensures Holders(t, kind, index) == Holders(rs, kind, index) {
      SortKeepsHolders(rs, kind, index);
    }
    if AtMostOneHolder(rs) { assert AtMostOneHolder(t); }
    if AtMostOneHolder(t) {
      forall kind, index ensures Holders(rs, kind, index) <= 1 {
        assert Holders(t, kind, index) <= 1;
      }
    }
  }

  lemma {:induction false} SortKeepsOrder(rs: seq<PointRange>)
    requires WellOrdered(rs)
    ensures WellOrdered(SortRanges(rs))
  {
    var t := SortRanges(rs);
    forall i | 0 <= i < |t| ensures t[i].start <= t[i].stop {
      assert t[i] in multiset(t);
      assert t[i] in multiset(rs);
    }
  }

  /** Sort, then compare neighbours: decides whether any two ranges, wherever they stand, share a point. */
  lemma {:induction false} SortThenCompareDecides(rs: seq<PointRange>)
    requires WellOrdered(rs)
    ensures WellOrdered(SortRanges(rs))
    ensures NeighboursOverlap(SortRanges(rs)) <==> !Disjoint(rs)
  {
    SortKeepsOrder(rs);
    SortRangesSorts(rs);
    NeighboursDecide(SortRanges(rs));
    SortKeepsDisjointness(rs);
  }

  // ---------------------------------------------------------- the host parser

  /** When each refusal of the range parser is given. */
  ghost predicate Justified(raw: seq<RawRange>, reason: Rejection) {
    match reason
    case InvalidLength => raw == [] || |raw| > MAX_RANGES
    case InvalidToken => exists i :: 0 <= i < |raw| && !PrintableToken(raw[i].kind, 64)
    case InvalidEnum => exists i :: 0 <= i < |raw| && raw[i].kind !in KINDS
    case OutOfRange => exists i :: 0 <= i < |raw| && !(0 <= raw[i].start <= 65535 && 0 <= raw[i].stop <= 65535)
    case InvalidRange => exists i :: 0 <= i < |raw| && raw[i].start > raw[i].stop
    case ExpectedSetTooLarge =>
      exists i :: 0 <= i <= |raw| && (forall k :: 0 <= k < i ==> ValidRange(raw[k]))
                  && Total(Typed(raw[..i])) > MAX_EXPECTED_POINTS
    case OverlappingRanges =>
      (forall i :: 0 <= i < |raw| ==> ValidRange(raw[i])) && !Disjoint(Typed(raw))
    case _ => false
  }

  lemma {:induction false} TypedSnoc(raw: seq<RawRange>, n: nat)
    requires n < |raw| && forall i :: 0 <= i <= n ==> ValidRange(raw[i])
    ensures Typed(raw[..n + 1]) == Typed(raw[..n]) + [PointRange(raw[n].kind, raw[n].start, raw[n].stop)]
    ensures Total(Typed(raw[..n + 1])) == Total(Typed(raw[..n])) + raw[n].stop - raw[n].start + 1
  {
    var t := Typed(raw[..n + 1]);
    assert t[..n] == Typed(raw[..n]);
  }

  lemma {:induction false} TotalGrows(raw: seq<RawRange>, n: nat, m: nat)
    requires n <= m <= |raw| && forall i :: 0 <= i < m ==> ValidRange(raw[i])
    ensures Total(Typed(raw[..n])) <= Total(Typed(raw[..m]))
    decreases m
  {
    if n < m {
      TotalGrows(raw, n, m - 1);
      TypedSnoc(raw, m - 1);
    }
  }

  /** One entry of `point_ranges`. */
  method ParseRange(item: RawRange) returns (r: Parse<PointRange>)
    ensures r.Parsed? <==> ValidRange(item)
    ensures r.Parsed? ==> r.value == PointRange(item.kind, item.start, item.stop)
    ensures r.Rejected? ==> Justified([item], r.reason)
  {
    assert [item][0] == item;
    if !PrintableToken(item.kind, 64) {
      KindsAreTokens(item.kind);
      return Rejected(InvalidToken);
    }
    if item.kind !in KINDS {
      return Rejected(InvalidEnum);
    }
    if !(0 <= item.start <= 65535) || !(0 <= item.stop <= 65535) {
      return Rejected(OutOfRange);
    }
    if item.start > item.stop {
      return Rejected(InvalidRange);
    }
    return Parsed(PointRange(item.kind, item.start, item.stop));
  }

  lemma {:induction false} KindsAreTokens(kind: string)
    ensures kind in KINDS ==> PrintableToken(kind, 64)
  {
  }

  lemma {:induction false} JustifiedByOne(raw: seq<RawRange>, index: nat, reason: Rejection)
    requires index < |raw| && reason in {InvalidToken, InvalidEnum, OutOfRange, InvalidRange}
    requires Justified([raw[index]], reason)
    ensures Justified(raw, reason)
  {
  }

  method AnyOverlap(ranges: seq<PointRange>) returns (overlap: bool)
    ensures overlap == NeighboursOverlap(ranges)
  {
    var index := 1;
    while index < |ranges|
      invariant 1 <= index && forall i :: 0 < i < index && i < |ranges| ==>
        !(ranges[i - 1].kind == ranges[i].kind && ranges[i].start <= ranges[i - 1].stop)
    {
      var previous, current := ranges[index - 1], ranges[index];
      if previous.kind == current.kind && current.start <= previous.stop {
        return true;
      }
      index := index + 1;
    }
    return false;
  }

  method ParsePointRanges(raw: seq<RawRange>) returns (r: Parse<seq<PointRange>>)
    ensures r.Parsed? <==> ValidSet(raw)
    ensures r.Parsed? ==> r.value == SortRanges(Typed(raw)) && Disjoint(r.value) && WellOrdered(r.value)
    ensures r.Rejected? ==> Justified(raw, r.reason)
  {
    if raw == [] || |raw| > MAX_RANGES {
      return Rejected(InvalidLength);
    }
    var expectedTotal: nat := 0;
    var output: seq<PointRange> := [];
    for index := 0 to |raw|
      invariant forall i :: 0 <= i < index ==> ValidRange(raw[i])
      invariant output == Typed(raw[..index])
      invariant expectedTotal == Total(Typed(raw[..index])) <= MAX_EXPECTED_POINTS
    {
      var range := ParseRange(raw[index]);
      if range.Rejected? {
        JustifiedByOne(raw, index, range.reason);
        return Rejected(range.reason);
      }
      var rangeSize := range.value.stop - range.value.start + 1;
      TypedSnoc(raw, index);
      // Unsigned: neither the difference nor the sum below can wrap around.
      assert 0 < rangeSize <= MAX_EXPECTED_POINTS && expectedTotal + rangeSize <= MAX64;
      if expectedTotal > MAX_EXPECTED_POINTS - rangeSize {
        TooLargeIsJustified(raw, index + 1);
        return Rejected(ExpectedSetTooLarge);
      }
      expectedTotal := expectedTotal + rangeSize;
      output := output + [range.value];
    }
    assert raw[..|raw|] == raw;
    SortThenCompareDecides(output);
    SortKeepsDisjointness(output);
    output := SortRanges(output);
    var overlap := AnyOverlap(output);
    if overlap {
      return Rejected(OverlappingRanges);
    }
    return Parsed(output);
  }

  lemma {:induction false} TooLargeIsJustified(raw: seq<RawRange>, n: nat)
    requires n <= |raw| && forall i :: 0 <= i < n ==> ValidRange(raw[i])
    requires Total(Typed(raw[..n])) > MAX_EXPECTED_POINTS
    ensures Justified(raw, ExpectedSetTooLarge) && !ValidSet(raw)
  {
    if forall i :: 0 <= i < |raw| ==> ValidRange(raw[i]) {
      TotalGrows(raw, n, |raw|);
      assert raw[..|raw|] == raw;
    }
  }

  // -------------------------------------------------------- whole configuration

  predicate ValidManifest(m: RawManifest) {
    && PrintableToken(m.generator, 128) && PrintableToken(m.generatorVersion, 128) && PrintableToken(m.scenarioId, 128)
    && 0 <= m.seed <= 0x7FFF_FFFF_FFFF_FFFF
    && 0 <= m.startSequence <= m.endSequence <= 0x7FFF_FFFF_FFFF_FFFF
    && 1 <= m.eventTotal <= 1_000_000_000
    && m.endSequence - m.startSequence + 1 == m.eventTotal
    && IsSha256(m.sha256)
    && m.matchRule == "ordered_kind_index_value"
  }

  function TypedManifest(m: RawManifest): Manifest
    requires ValidManifest(m)
  {
    Manifest(m.generator, m.generatorVersion, m.scenarioId, m.seed, m.startSequence, m.endSequence,
             m.eventTotal, Lower(m.sha256), m.matchRule)
  }

  function SourceOf(s: string): Option<Source> {
    if s == "solicited" then Some(Solicited) else if s == "unsolicited" then Some(Unsolicited) else None
  }

  function ModeOf(s: string): Option<Mode> {
    if s == "static_set" then Some(StaticSet)
    else if s == "event_sequence" then Some(EventSequence)
    else if s == "observation" then Some(Observation)
    else None
  }

  predicate ValidSources(s: seq<string>) {
    && 1 <= |s| <= 2
    && (forall i :: 0 <= i < |s| ==> SourceOf(s[i]).Some?)
    && (forall i, j :: 0 <= i < j < |s| ==> s[i] != s[j])
  }

  function TypedSources(s: seq<string>): (t: seq<Source>)
    requires forall i :: 0 <= i < |s| ==> SourceOf(s[i]).Some?
    ensures |t| == |s|
  {
    seq(|s|, i requires 0 <= i < |s| => SourceOf(s[i]).value)
  }

  predicate Within(value: Option<int>, minimum: int, maximum: int, required: bool) {
    if value.None? then !required else minimum <= value.value <= maximum
  }

  /** What the parser lets through, as one condition. */
  ghost predicate ValidParams(p: Params) {
    && ModeOf(p.mode).Some?
    && ValidSources(p.sources)
    && Within(p.sampleLimit, 0, 1024, false)
    && Within(p.queueCapacity, 1, 65536, false)
    && Within(p.durationMs, 100, 604_800_000, true)
    && match ModeOf(p.mode).value
       case Observation => p.expected.None?
       case StaticSet => p.expected.Some? && p.expected.value.PointRanges? && ValidSet(p.expected.value.ranges)
       case EventSequence => p.expected.Some? && p.expected.value.EventManifest? && ValidManifest(p.expected.value.manifest)
  }

  ghost function MeaningOf(p: Params): Config
    requires ValidParams(p)
  {
    var mode := ModeOf(p.mode).value;
    Config(
      mode, TypedSources(p.sources),
      if mode == StaticSet then SortRanges(Typed(p.expected.value.ranges)) else [],
      if mode == EventSequence then Some(TypedManifest(p.expected.value.manifest)) else None,
      if p.sampleLimit.Some? then p.sampleLimit.value else 100,
      if p.queueCapacity.Some? then p.queueCapacity.value else 4096,
      p.durationMs.value)
  }

  /** Parameters that are left out have the documented defaults. */
  lemma {:induction false} DefaultsApply(p: Params)
    requires ValidParams(p)
    ensures p.sampleLimit.None? ==> MeaningOf(p).sampleLimit == 100
    ensures p.queueCapacity.None? ==> MeaningOf(p).queueCapacity == 4096
    ensures p.sampleLimit.Some? ==> MeaningOf(p).sampleLimit == p.sampleLimit.value
    ensures p.queueCapacity.Some? ==> MeaningOf(p).queueCapacity == p.queueCapacity.value
  {
  }

  method ParseSources(sources: seq<string>) returns (r: Parse<seq<Source>>)
    ensures r.Parsed? <==> ValidSources(sources)
    ensures r.Parsed? ==> r.value == TypedSources(sources)
  {
    if sources == [] || |sources| > 2 {
      return Rejected(InvalidLength);
    }
    var seen: set<string>, output: seq<Source> := {}, [];
    for index := 0 to |sources|
      invariant forall i :: 0 <= i < index ==> SourceOf(sources[i]).Some?
      invariant seen == set i | 0 <= i < index :: sources[i]
      invariant forall i, j :: 0 <= i < j < index ==> sources[i] != sources[j]
      invariant output == TypedSources(sources[..index])
    {
      var source := SourceOf(sources[index]);
      if source.None? {
        return Rejected(InvalidEnum);
      }
      if sources[index] in seen {
        return Rejected(DuplicateValue);
      }
      seen := seen + {sources[index]};
      output := output + [source.value];
    }
    assert sources[..|sources|] == sources;
    return Parsed(output);
  }

  method ParseEventManifest(m: RawManifest) returns (r: Parse<Manifest>)
    ensures r.Parsed? <==> ValidManifest(m)
    ensures r.Parsed? ==> r.value == TypedManifest(m)
  {
    if !PrintableToken(m.generator, 128) || !PrintableToken(m.generatorVersion, 128) || !PrintableToken(m.scenarioId, 128) {
      return Rejected(InvalidToken);
    }
    var maximum := 0x7FFF_FFFF_FFFF_FFFF;
    if !(0 <= m.seed <= maximum) || !(0 <= m.startSequence <= maximum) || !(0 <= m.endSequence <= maximum)
       || !(1 <= m.eventTotal <= 1_000_000_000) {
      return Rejected(OutOfRange);
    }
    if m.startSequence > m.endSequence || m.endSequence - m.startSequence + 1 != m.eventTotal {
      return Rejected(InconsistentSequenceRange);
    }
    if IsSha256(m.sha256) { ShaIsToken(m.sha256); }
    if !PrintableToken(m.sha256, 64) {
      return Rejected(InvalidToken);
    }
    if !IsSha256(m.sha256) {
      return Rejected(InvalidSha256);
    }
    if !PrintableToken(m.matchRule, 64) {
      return Rejected(InvalidToken);
    }
    if m.matchRule != "ordered_kind_index_value" {
      return Rejected(InvalidEnum);
    }
    return Parsed(Manifest(m.generator, m.generatorVersion, m.scenarioId, m.seed, m.startSequence, m.endSequence,
                           m.eventTotal, Lower(m.sha256), m.matchRule));
  }

  lemma {:induction false} ShaIsToken(s: string)
    requires IsSha256(s)
    ensures PrintableToken(s, 64)
  {
    forall i | 0 <= i < |s| ensures '!' <= s[i] <= '~' { assert HexDigit(s[i]); }
  }

  method ParseCaptureConfig(p: Params) returns (r: Parse<Config>)
    ensures r.Parsed? <==> ValidParams(p)
    ensures r.Parsed? ==> r.value == MeaningOf(p)
  {
    var mode := ModeOf(p.mode);
    if mode.None? {
      return Rejected(InvalidEnum);
    }
    var sources := ParseSources(p.sources);
    if sources.Rejected? {
      return Rejected(sources.reason);
    }
    if !Within(p.sampleLimit, 0, 1024, false) || !Within(p.queueCapacity, 1, 65536, false) {
      return Rejected(OutOfRange);
    }
    if p.durationMs.None? {
      return Rejected(MissingField);
    }
    if !Within(p.durationMs, 100, 604_800_000, true) {
      return Rejected(OutOfRange);
    }
    var sampleLimit := if p.sampleLimit.Some? then p.sampleLimit.value else 100;
    var queueCapacity := if p.queueCapacity.Some? then p.queueCapacity.value else 4096;
    if mode.value == Observation {
      if p.expected.Some? {
        return Rejected(UnexpectedForMode);
      }
      return Parsed(Config(Observation, sources.value, [], None, sampleLimit, queueCapacity, p.durationMs.value));
    }
    if p.expected.None? {
      return Rejected(MissingField);
    }
    if mode.value == StaticSet {
      if !p.expected.value.PointRanges? {
        return Rejected(UnknownField);
      }
      var ranges := ParsePointRanges(p.expected.value.ranges);
      if ranges.Rejected? {
        return Rejected(ranges.reason);
      }
      return Parsed(Config(StaticSet, sources.value, ranges.value, None, sampleLimit, queueCapacity, p.durationMs.value));
    }
    if !p.expected.value.EventManifest? {
      return Rejected(UnknownField);
    }
    var manifest := ParseEventManifest(p.expected.value.manifest);
    if manifest.Rejected? {
      return Rejected(manifest.reason);
    }
    return Parsed(Config(EventSequence, sources.value, [], Some(manifest.value), sampleLimit, queueCapacity,
                         p.durationMs.value));
  }

  // --------------------------------------------------------- the Python side

  /** `CaptureConfig` of models.py; the duration is already rounded to milliseconds. */
  datatype PyConfig = PyConfig(
    mode: string, sources: seq<string>, durationMs: int, ranges: seq<RawRange>,
    manifest: Option<RawManifest>, sampleLimit: int, queueCapacity: int)

  function SumOf(raw: seq<RawRange>): int {
    if raw == [] then 0 else raw[0].stop - raw[0].start + 1 + SumOf(raw[1..])
  }

  /** `__post_init__`: the checks of the range objects, then those of the configuration. */
  predicate PyAccepts(c: PyConfig) {
    && ModeOf(c.mode).Some?
    && ValidSources(c.sources)
    && 100 <= c.durationMs <= 604_800_000
    && 0 <= c.sampleLimit <= 1024
    && 1 <= c.queueCapacity <= 65536
    && (forall i :: 0 <= i < |c.ranges| ==> ValidRange(c.ranges[i]))
    && |c.ranges| <= 256
    && (c.manifest.Some? ==> ValidManifest(c.manifest.value))
    && match ModeOf(c.mode).value
       case StaticSet =>
         c.ranges != [] && c.manifest.None? && SumOf(c.ranges) <= 1_000_000
         && !NeighboursOverlap(SortRanges(Typed(c.ranges)))
       case EventSequence => c.ranges == [] && c.manifest.Some?
       case Observation => c.ranges == [] && c.manifest.None?
  }

  /** The manifest object keeps its digest in lower case. */
  function ToParams(c: PyConfig): Params
    requires PyAccepts(c)
  {
    Params(
      c.mode, c.sources,
      match ModeOf(c.mode).value
      case StaticSet => Some(PointRanges(c.ranges))
      case EventSequence => Some(EventManifest(c.manifest.value.(sha256 := Lower(c.manifest.value.sha256))))
      case Observation => None,
      Some(c.sampleLimit), Some(c.queueCapacity), Some(c.durationMs))
  }

  lemma {:induction false} TotalCons(rs: seq<PointRange>)
    requires WellOrdered(rs) && rs != []
    ensures Total(rs) == Size(rs[0]) + Total(rs[1..])
  {
    if |rs| > 1 {
      var last := |rs| - 1;
      TotalCons(rs[..last]);
      assert rs[..last][1..] == rs[1..][..last - 1] && rs[1..][last - 1] == rs[last];
    }
  }

  lemma {:induction false} SumIsTotal(raw: seq<RawRange>)
    requires forall i :: 0 <= i < |raw| ==> ValidRange(raw[i])
    ensures SumOf(raw) == Total(Typed(raw))
  {
    if raw != [] {
      SumIsTotal(raw[1..]);
      TotalCons(Typed(raw));
      assert Typed(raw)[1..] == Typed(raw[1..]);
    }
  }

  /**
   * The host accepts every configuration Python accepts, with the same meaning: the same
   * mode, sources, limits and manifest, and the same ranges in sorted order.
   */
  lemma {:induction false} HostAcceptsPythonConfig(c: PyConfig)
    requires PyAccepts(c)
    ensures ValidParams(ToParams(c))
    ensures var m := MeaningOf(ToParams(c));
            && Some(m.mode) == ModeOf(c.mode) && m.sources == TypedSources(c.sources)
            && multiset(m.ranges) == multiset(Typed(c.ranges))
            && m.sampleLimit == c.sampleLimit && m.queueCapacity == c.queueCapacity && m.durationMs == c.durationMs
            && (m.manifest.Some? <==> c.manifest.Some?)
            && (c.manifest.Some? ==> m.manifest == Some(TypedManifest(c.manifest.value)))
  {
    SumIsTotal(c.ranges);
    SortThenCompareDecides(Typed(c.ranges));
    if c.manifest.Some? {
      LowerIsLower(c.manifest.value.sha256);
    }
  }

  /** Conversely, for a static set, Python refuses nothing the host would accept. */
  lemma {:induction false} PythonAcceptsHostRanges(c: PyConfig)
    requires ModeOf(c.mode) == Some(StaticSet) && c.manifest.None?
    requires ValidSources(c.sources) && 100 <= c.durationMs <= 604_800_000
    requires 0 <= c.sampleLimit <= 1024 && 1 <= c.queueCapacity <= 65536
    ensures PyAccepts(c) <==> ValidSet(c.ranges)
  {
    if forall i :: 0 <= i < |c.ranges| ==> ValidRange(c.ranges[i]) {
      SumIsTotal(c.ranges);
      SortThenCompareDecides(Typed(c.ranges));
    }
  }
}
