// A batch of commands: how its points are keyed, how returned points find their requests, and
// what both languages conclude from the result.

module Commands {
  import opened Common

  datatype Kind = Crob | Int16 | Int32 | Float32 | Double64

  datatype Command = Command(kind: Kind, index: nat)

  function Rank(kind: Kind): (r: nat)
    ensures r < 5
  {
    match kind
    case Crob => 0
    case Int16 => 1
    case Int32 => 2
    case Float32 => 3
    case Double64 => 4
  }

  const KINDS: seq<Kind> := [Crob, Int16, Int32, Float32, Double64]

  lemma {:induction false} KindAtRank(kind: Kind, r: nat)
    requires r < 5
    ensures Rank(kind) == r <==> KINDS[r] == kind
  {
  }

  // ------------------------------------------------------------- parsing

  /** One entry of `commands`; `fieldsOk`: the fields of its type pass their own checks. */
  datatype RawCommand = RawCommand(typeName: string, index: int, fieldsOk: bool)

  datatype Rejection = InvalidLength | IndexOutOfRange | UnknownType | InvalidField | DuplicatePoint

  datatype Parsed = Parsed(commands: seq<Command>) | Rejected(at: nat, reason: Rejection)

  function KindOf(name: string): Option<Kind> {
    if name == "crob" then Some(Crob)
    else if name == "analog_output_int16" then Some(Int16)
    else if name == "analog_output_int32" then Some(Int32)
    else if name == "analog_output_float32" then Some(Float32)
    else if name == "analog_output_double64" then Some(Double64)
    else None
  }

  predicate ValidCommand(raw: RawCommand) {
    0 <= raw.index <= 65535 && KindOf(raw.typeName).Some? && raw.fieldsOk
  }

  function Typed(raw: RawCommand): Command
    requires ValidCommand(raw)
  {
    Command(KindOf(raw.typeName).value, raw.index)
  }

  /** What the correlation relies on: no two commands share a type and an index. */
  predicate GoodBatch(commands: seq<Command>) {
    && 1 <= |commands| <= 256 && Distinct(commands)
    && forall i :: 0 <= i < |commands| ==> commands[i].index <= 65535
  }

  method ParseCommands(raw: seq<RawCommand>) returns (r: Parsed)
    ensures r.Parsed? <==>
      && 1 <= |raw| <= 256 && (forall i :: 0 <= i < |raw| ==> ValidCommand(raw[i]))
      && (forall i, j :: 0 <= i < j < |raw| ==> raw[i].typeName != raw[j].typeName || raw[i].index != raw[j].index)
    ensures r.Parsed? ==> GoodBatch(r.commands) && |r.commands| == |raw|
                          && forall i :: 0 <= i < |raw| ==> r.commands[i] == Typed(raw[i])
    ensures r.Rejected? && r.reason == DuplicatePoint ==>
      r.at < |raw| && ValidCommand(raw[r.at])
      && exists i :: 0 <= i < r.at && ValidCommand(raw[i]) && Typed(raw[i]) == Typed(raw[r.at])
  {
    if raw == [] || |raw| > 256 {
      return Rejected(0, InvalidLength);
    }
    var commands: seq<Command> := [];
    var identities: set<Command> := {};
    for ordinal := 0 to |raw|
      invariant |commands| == ordinal && Distinct(commands)
      invariant forall i :: 0 <= i < ordinal ==> ValidCommand(raw[i]) && commands[i] == Typed(raw[i])
      invariant forall i, j :: 0 <= i < j < ordinal ==>
        raw[i].typeName != raw[j].typeName || raw[i].index != raw[j].index
      invariant forall c :: c in identities <==> c in commands
    {
      var item := raw[ordinal];
      if !(0 <= item.index <= 65535) {
        return Rejected(ordinal, IndexOutOfRange);
      }
      var kind := KindOf(item.typeName);
      if kind.None? {
        return Rejected(ordinal, UnknownType);
      }
      if !item.fieldsOk {
        return Rejected(ordinal, InvalidField);
      }
      var command := Command(kind.value, item.index);
      if command in identities {
        ghost var i :| 0 <= i < ordinal && commands[i] == command;
        SameTypeName(raw[i].typeName, item.typeName);
        return Rejected(ordinal, DuplicatePoint);
      }
      forall i | 0 <= i < ordinal ensures raw[i].typeName != item.typeName || raw[i].index != item.index {
        assert commands[i] in identities;
      }
      identities := identities + {command};
      commands := commands + [command];
    }
    r := Parsed(commands);
  }

  lemma {:induction false} SameTypeName(a: string, b: string)
    ensures KindOf(a).Some? && KindOf(a) == KindOf(b) ==> a == b
  {
  }

  function UpTo(n: nat): (s: set<nat>)
    ensures |s| == n && forall o :: o in s <==> 0 <= o < n
  {
    if n == 0 then {} else UpTo(n - 1) + {n - 1}
  }

  // ------------------------------------------------------------- keys

  predicate Has(commands: seq<Command>, kind: Kind) {
    exists o :: 0 <= o < |commands| && commands[o].kind == kind
  }

  /** How many object headers the kinds before rank `r` take. */
  function Headers(commands: seq<Command>, r: nat): nat
    requires r <= 5
  {
    if r == 0 then 0 else Headers(commands, r - 1) + (if Has(commands, KINDS[r - 1]) then 1 else 0)
  }

  /** `point_key`: the header number above the 16 bits of the index. */
  function PointKey(header: nat, index: nat): nat {
    header * 65536 + index
  }

  function KeyOf(commands: seq<Command>, o: nat): nat
    requires o < |commands|
  {
    PointKey(Headers(commands, Rank(commands[o].kind)), commands[o].index)
  }

  lemma {:induction false} HeadersGrow(commands: seq<Command>, a: nat, b: nat)
    requires a <= b <= 5
    ensures Headers(commands, a) <= Headers(commands, b)
    ensures a < b && Has(commands, KINDS[a]) ==> Headers(commands, a) < Headers(commands, b)
  {
    if a < b { HeadersGrow(commands, a, b - 1); }
  }

  lemma {:induction false} PointKeyUnique(h: nat, i: nat, g: nat, j: nat)
    requires i <= 65535 && j <= 65535 && PointKey(h, i) == PointKey(g, j)
    ensures h == g && i == j
  {
  }

  /** Two commands have the same key exactly when they have the same type and index. */
  lemma {:induction false} KeysTellCommands(commands: seq<Command>, o: nat, p: nat)
    requires o < |commands| && p < |commands| && commands[o].index <= 65535 && commands[p].index <= 65535
    ensures KeyOf(commands, o) == KeyOf(commands, p) <==> commands[o] == commands[p]
  {
    var a, b := Rank(commands[o].kind), Rank(commands[p].kind);
    KindAtRank(commands[o].kind, a);
    KindAtRank(commands[p].kind, b);
    if a < b { HeadersGrow(commands, a, b); }
    if b < a { HeadersGrow(commands, b, a); }
    if KeyOf(commands, o) == KeyOf(commands, p) {
      PointKeyUnique(Headers(commands, a), commands[o].index, Headers(commands, b), commands[p].index);
    }
  }

  // ------------------------------------------------------------- building

  datatype Request = Request(ordinal: nat, kind: Kind, index: nat)

  function First(commands: seq<Command>, o: nat): (p: nat)
    requires o < |commands|
    ensures p <= o && commands[p] == commands[o]
    ensures forall q :: 0 <= q < p ==> commands[q] != commands[o]
  {
    FirstFrom(commands, o, 0)
  }

  function FirstFrom(commands: seq<Command>, o: nat, from: nat): (p: nat)
    requires from <= o < |commands| && forall q :: 0 <= q < from ==> commands[q] != commands[o]
    ensures p <= o && commands[p] == commands[o]
    ensures forall q :: 0 <= q < p ==> commands[q] != commands[o]
    decreases o - from
  {
    if commands[from] == commands[o] then from else FirstFrom(commands, o, from + 1)
  }

  function RequestOf(commands: seq<Command>, o: nat): Request
    requires o < |commands|
  {
    Request(o, commands[o].kind, commands[o].index)
  }

  /** The map holds the requests `done`, each under its key; of equal commands, the first. */
  ghost predicate IsMetadata(commands: seq<Command>, metadata: map<nat, Request>, done: set<nat>) {
    && (forall o :: o in done ==> o < |commands| && KeyOf(commands, o) in metadata
                                  && metadata[KeyOf(commands, o)] == RequestOf(commands, First(commands, o)))
    && (forall k :: k in metadata ==>
          var o := metadata[k].ordinal; o in done && o < |commands| && KeyOf(commands, o) == k)
  }

  predicate InRange(commands: seq<Command>) {
    forall i :: 0 <= i < |commands| ==> commands[i].index <= 65535
  }

  /** `std::map::emplace`: an existing entry stays. */
  function Emplace(metadata: map<nat, Request>, key: nat, request: Request): map<nat, Request> {
    if key in metadata then metadata else metadata[key := request]
  }

  lemma {:induction false} EmplaceOne(commands: seq<Command>, metadata: map<nat, Request>, done: set<nat>, o: nat)
    requires IsMetadata(commands, metadata, done) && o < |commands| && InRange(commands)
    requires forall p :: 0 <= p < o && commands[p] == commands[o] ==> p in done
    ensures IsMetadata(commands, Emplace(metadata, KeyOf(commands, o), RequestOf(commands, o)), done + {o})
  {
    if KeyOf(commands, o) in metadata {
      KeyTaken(commands, metadata, done, o);
    } else {
      KeyFree(commands, metadata, done, o);
    }
  }

  lemma {:induction false} KeyTaken(commands: seq<Command>, metadata: map<nat, Request>, done: set<nat>, o: nat)
    requires IsMetadata(commands, metadata, done) && o < |commands| && InRange(commands)
    requires KeyOf(commands, o) in metadata
    ensures IsMetadata(commands, metadata, done + {o})
  {
    var p := metadata[KeyOf(commands, o)].ordinal;
    KeysTellCommands(commands, o, p);
    FirstIsShared(commands, o, p);
  }

  lemma {:induction false} KeyFree(commands: seq<Command>, metadata: map<nat, Request>, done: set<nat>, o: nat)
    requires IsMetadata(commands, metadata, done) && o < |commands|
    requires KeyOf(commands, o) !in metadata
    requires forall p :: 0 <= p < o && commands[p] == commands[o] ==> p in done
    ensures IsMetadata(commands, metadata[KeyOf(commands, o) := RequestOf(commands, o)], done + {o})
  {
    var k := KeyOf(commands, o);
    var more := metadata[k := RequestOf(commands, o)];
    var first := First(commands, o);
    assert first < o ==> first in done;
    assert KeyOf(commands, first) == k;
  }

  lemma {:induction false} FirstIsShared(commands: seq<Command>, o: nat, p: nat)
    requires o < |commands| && p < |commands| && commands[o] == commands[p]
    ensures First(commands, o) == First(commands, p)
  {
  }

  /** The first command with the key, or the number of commands if there is none. */
  function OwnerFrom(commands: seq<Command>, k: nat, from: nat): (p: nat)
    requires from <= |commands|
    ensures from <= p <= |commands| && (p < |commands| ==> KeyOf(commands, p) == k)
    ensures forall q :: from <= q < p ==> KeyOf(commands, q) != k
    decreases |commands| - from
  {
    if from == |commands| || KeyOf(commands, from) == k then from else OwnerFrom(commands, k, from + 1)
  }

  function Keys(commands: seq<Command>): set<nat> {
    set o | 0 <= o < |commands| :: KeyOf(commands, o)
  }

  /** The map of a batch: under each key that occurs, the first request that has it. */
  function MetadataOf(commands: seq<Command>): map<nat, Request> {
    map k | k in Keys(commands) && OwnerFrom(commands, k, 0) < |commands|
      :: RequestOf(commands, OwnerFrom(commands, k, 0))
  }

  lemma {:induction false} OwnerIsFirst(commands: seq<Command>, o: nat)
    requires o < |commands| && InRange(commands)
    ensures KeyOf(commands, o) in Keys(commands)
    ensures OwnerFrom(commands, KeyOf(commands, o), 0) == First(commands, o)
  {
    var p, q := OwnerFrom(commands, KeyOf(commands, o), 0), First(commands, o);
    assert q <= o && commands[q] == commands[o];
    KeysTellCommands(commands, o, q);
    if p < |commands| { KeysTellCommands(commands, o, p); }
  }

  lemma {:induction false} MetadataIs(commands: seq<Command>)
    requires InRange(commands)
    ensures IsMetadata(commands, MetadataOf(commands), Before(commands, 5))
  {
    forall o | o in Before(commands, 5)
      ensures KeyOf(commands, o) in MetadataOf(commands)
      ensures MetadataOf(commands)[KeyOf(commands, o)] == RequestOf(commands, First(commands, o))
    {
      OwnerIsFirst(commands, o);
    }
  }

  lemma {:induction false} MetadataIsUnique(commands: seq<Command>, a: map<nat, Request>, b: map<nat, Request>, done: set<nat>)
    requires IsMetadata(commands, a, done) && IsMetadata(commands, b, done)
    ensures a == b
  {
    forall k | k in a ensures k in b && a[k] == b[k] { assert a[k].ordinal in done; }
    forall k | k in b ensures k in a { assert b[k].ordinal in done; }
  }

  /** Adding the requests kind by kind gives that map. */
  lemma {:induction false} KindByKindGivesMap(commands: seq<Command>, metadata: map<nat, Request>)
    requires InRange(commands) && IsMetadata(commands, metadata, Before(commands, 5))
    ensures metadata == MetadataOf(commands)
  {
    MetadataIs(commands);
    MetadataIsUnique(commands, metadata, MetadataOf(commands), Before(commands, 5));
  }

  /** The ordinals of one kind, in order. */
  function OfKind(commands: seq<Command>, kind: Kind, n: nat): (os: seq<nat>)
    requires n <= |commands|
    ensures forall o :: o in os <==> 0 <= o < n && commands[o].kind == kind
    ensures forall i, j :: 0 <= i < j < |os| ==> os[i] < os[j]
  {
    if n == 0 then []
    else
      var rest := OfKind(commands, kind, n - 1);
      assert forall i :: 0 <= i < |rest| ==> rest[i] in rest;
      if commands[n - 1].kind == kind then rest + [n - 1] else rest
  }

  function Before(commands: seq<Command>, r: nat): set<nat> {
    set o | 0 <= o < |commands| && Rank(commands[o].kind) < r
  }

  function Ordinals(os: seq<nat>, n: nat): set<nat>
    requires n <= |os|
  {
    set i | 0 <= i < n :: os[i]
  }

  lemma {:induction false} NextEntry(commands: seq<Command>, base: set<nat>, kind: Kind, entries: seq<nat>, i: nat)
    requires entries == OfKind(commands, kind, |commands|) && i < |entries|
    ensures entries[i] < |commands| && commands[entries[i]].kind == kind
    ensures forall p :: 0 <= p < entries[i] && commands[p] == commands[entries[i]] ==> p in base + Ordinals(entries, i)
    ensures base + Ordinals(entries, i + 1) == (base + Ordinals(entries, i)) + {entries[i]}
  {
    assert entries[i] in entries;
    forall p | 0 <= p < entries[i] && commands[p] == commands[entries[i]] ensures p in Ordinals(entries, i) {
      assert p in entries;
      EarlierEntry(entries, i, p);
    }
  }

  lemma {:induction false} AddEntry(commands: seq<Command>, metadata: map<nat, Request>, base: set<nat>, done: set<nat>, kind: Kind,
                 entries: seq<nat>, header: nat, i: nat)
    requires InRange(commands) && entries == OfKind(commands, kind, |commands|) && i < |entries|
    requires IsMetadata(commands, metadata, done) && done == base + Ordinals(entries, i)
    requires header == Headers(commands, Rank(kind))
    ensures entries[i] < |commands|
    ensures IsMetadata(commands, Emplace(metadata, PointKey(header, commands[entries[i]].index),
                                         RequestOf(commands, entries[i])), done + {entries[i]})
    ensures done + {entries[i]} == base + Ordinals(entries, i + 1)
  {
    NextEntry(commands, base, kind, entries, i);
    EmplaceOne(commands, metadata, done, entries[i]);
  }

  function AllOfKind(commands: seq<Command>, kind: Kind): seq<nat> {
    OfKind(commands, kind, |commands|)
  }

  /** The number of the header that holds the commands of a kind. */
  function HeaderOf(commands: seq<Command>, kind: Kind): nat {
    Headers(commands, Rank(kind))
  }

  method AddEntries(commands: seq<Command>, entries: seq<nat>, header: nat, before: map<nat, Request>,
                    ghost kind: Kind, ghost base: set<nat>)
    returns (metadata: map<nat, Request>)
    requires InRange(commands) && entries == AllOfKind(commands, kind)
    requires header == HeaderOf(commands, kind) && IsMetadata(commands, before, base)
    ensures IsMetadata(commands, metadata, base + Ordinals(entries, |entries|))
  {
    metadata := before;
    ghost var done := base;
    for i := 0 to |entries|
      invariant IsMetadata(commands, metadata, done) && done == base + Ordinals(entries, i)
    {
      AddEntry(commands, metadata, base, done, kind, entries, header, i);
      done := done + {entries[i]};
      var o := entries[i];
      metadata := Emplace(metadata, PointKey(header, commands[o].index), RequestOf(commands, o));
    }
  }

  /** `add_metadata`: the requests of one kind, under the next header. */
  method AddMetadata(commands: seq<Command>, entries: seq<nat>, header: nat, before: map<nat, Request>,
                     ghost kind: Kind)
    returns (metadata: map<nat, Request>)
    requires InRange(commands) && entries == AllOfKind(commands, kind)
    requires header == HeaderOf(commands, kind) && IsMetadata(commands, before, Before(commands, Rank(kind)))
    ensures IsMetadata(commands, metadata, Before(commands, Rank(kind) + 1))
  {
    metadata := AddEntries(commands, entries, header, before, kind, Before(commands, Rank(kind)));
    KindFinishesRank(commands, entries, kind);
  }

  lemma {:induction false} EarlierEntry(entries: seq<nat>, i: nat, p: nat)
    requires i < |entries| && p in entries && p < entries[i]
    requires forall a, b :: 0 <= a < b < |entries| ==> entries[a] < entries[b]
    ensures p in Ordinals(entries, i)
  {
    var j :| 0 <= j < |entries| && entries[j] == p;
    assert j < i;
  }

  lemma {:induction false} KindFinishesRank(commands: seq<Command>, entries: seq<nat>, kind: Kind)
    requires entries == OfKind(commands, kind, |commands|)
    ensures Before(commands, Rank(kind)) + Ordinals(entries, |entries|) == Before(commands, Rank(kind) + 1)
  {
    forall o | o in Before(commands, Rank(kind) + 1)
      ensures o in Before(commands, Rank(kind)) + Ordinals(entries, |entries|)
    {
      KindAtRank(commands[o].kind, Rank(kind));
      KindAtRank(kind, Rank(kind));
      if commands[o].kind == kind { assert o in entries; }
    }
    forall o | o in Ordinals(entries, |entries|) ensures o in Before(commands, Rank(kind) + 1) { assert o in entries; }
  }

  lemma {:induction false} RankHas(commands: seq<Command>, r: nat)
    requires r < 5
    ensures Has(commands, KINDS[r]) <==> OfKind(commands, KINDS[r], |commands|) != []
  {
    var os := OfKind(commands, KINDS[r], |commands|);
    if Has(commands, KINDS[r]) {
      var o :| 0 <= o < |commands| && commands[o].kind == KINDS[r];
      assert o in os;
    }
    if os != [] { assert os[0] in os; }
  }

  /** One header for each kind before rank `r` that occurs, holding all commands of that kind in order. */
  predicate HeadersHold(commands: seq<Command>, headers: seq<seq<nat>>, r: nat)
    requires r <= 5
  {
    && |headers| == Headers(commands, r)
    && forall o :: 0 <= o < |commands| && Rank(commands[o].kind) < r ==>
         var h := HeaderOf(commands, commands[o].kind);
         h < |headers| && headers[h] == AllOfKind(commands, commands[o].kind)
  }

  lemma {:induction false} NextHeader(commands: seq<Command>, headers: seq<seq<nat>>, r: nat)
    requires r < 5 && HeadersHold(commands, headers, r)
    ensures var entries := AllOfKind(commands, KINDS[r]);
            HeadersHold(commands, if entries != [] then headers + [entries] else headers, r + 1)
  {
    RankHas(commands, r);
    forall o | 0 <= o < |commands| && Rank(commands[o].kind) == r
      ensures commands[o].kind == KINDS[r] && AllOfKind(commands, KINDS[r]) != []
    {
      KindAtRank(commands[o].kind, r);
      assert o in AllOfKind(commands, commands[o].kind);
    }
  }

  /**
   * The object headers, one for each kind that occurs, and the map from point keys to requests.
   * The source adds the five kinds one after the other.
   */
  method BuildCommandSet(commands: seq<Command>)
    returns (headers: seq<seq<nat>>, metadata: map<nat, Request>, expected: nat)
    requires InRange(commands)
    ensures expected == |commands| && HeadersHold(commands, headers, 5) && metadata == MetadataOf(commands)
  {
    headers, metadata := [], map[];
    for r := 0 to 5
      invariant HeadersHold(commands, headers, r)
      invariant IsMetadata(commands, metadata, Before(commands, r))
    {
      var entries := AllOfKind(commands, KINDS[r]);
      KindAtRank(KINDS[r], r);
      NextHeader(commands, headers, r);
      if entries != [] {
        metadata := AddMetadata(commands, entries, |headers|, metadata, KINDS[r]);
        headers := headers + [entries];
      } else {
        EmptyKind(commands, r);
      }
    }
    KindByKindGivesMap(commands, metadata);
    expected := |commands|;
  }

  lemma {:induction false} EmptyKind(commands: seq<Command>, r: nat)
    requires r < 5 && OfKind(commands, KINDS[r], |commands|) == []
    ensures Before(commands, r + 1) == Before(commands, r)
  {
    forall o | o in Before(commands, r + 1) ensures o in Before(commands, r) {
      KindAtRank(commands[o].kind, r);
      assert o in OfKind(commands, commands[o].kind, |commands|);
    }
  }

  /** For a parsed batch the keys and the request ordinals are in bijection. */
  lemma {:induction false} KeysAreOrdinals(commands: seq<Command>, metadata: map<nat, Request>)
    requires GoodBatch(commands) && metadata == MetadataOf(commands)
    ensures forall o :: 0 <= o < |commands| ==>
      KeyOf(commands, o) in metadata && metadata[KeyOf(commands, o)] == RequestOf(commands, o)
    ensures forall k :: k in metadata ==>
      metadata[k].ordinal < |commands| && KeyOf(commands, metadata[k].ordinal) == k
    ensures forall k, l :: k in metadata && l in metadata && metadata[k].ordinal == metadata[l].ordinal ==> k == l
  {
    MetadataIs(commands);
    forall o | 0 <= o < |commands|
      ensures KeyOf(commands, o) in metadata && metadata[KeyOf(commands, o)] == RequestOf(commands, o)
    {
      assert o in Before(commands, 5);
      assert First(commands, o) == o;
    }
    forall k | k in metadata ensures metadata[k].ordinal < |commands| && KeyOf(commands, metadata[k].ordinal) == k {
      assert metadata[k].ordinal in Before(commands, 5);
    }
  }

  // ------------------------------------------------------------- results

  datatype PointState = Init | SelectSuccess | SelectMismatch | SelectFail | OperateFail | PointSuccess

  /** A point as the library returns it. */
  datatype Point = Point(header: nat, index: nat, state: PointState, statusRaw: nat)

  /** A point as the host reports it. */
  datatype Item = Item(
    header: nat, index: nat, state: PointState, statusRaw: nat, status: string, reserved: bool,
    unambiguous: bool, requested: Option<Request>)

  /** Seven bits of status, 16 of index, 32 of header index. */
  predicate LibraryPoints(points: seq<Point>) {
    forall i :: 0 <= i < |points| ==> points[i].statusRaw <= 127 && points[i].index <= 65535
  }

  function StatusName(raw: nat): string {
    match raw
    case 0 => "SUCCESS"
    case 1 => "TIMEOUT"
    case 2 => "NO_SELECT"
    case 3 => "FORMAT_ERROR"
    case 4 => "NOT_SUPPORTED"
    case 5 => "ALREADY_ACTIVE"
    case 6 => "HARDWARE_ERROR"
    case 7 => "LOCAL"
    case 8 => "TOO_MANY_OBJS"
    case 9 => "NOT_AUTHORIZED"
    case 10 => "AUTOMATION_INHIBIT"
    case 11 => "PROCESSING_LIMITED"
    case 12 => "OUT_OF_RANGE"
    case 126 => "NON_PARTICIPATING"
    case 127 => "UNDEFINED"
    case _ => "RESERVED"
  }

  predicate Reserved(raw: nat) { 13 <= raw <= 125 }

  predicate Unambiguous(raw: nat) { raw != 127 }

  predicate NeedsReadback(raw: nat) { raw == 1 || Reserved(raw) || !Unambiguous(raw) }

  predicate Succeeded(p: Point) { p.state == PointSuccess && p.statusRaw == 0 }

  function Lookup(metadata: map<nat, Request>, p: Point): Option<Request> {
    var k := PointKey(p.header, p.index);
    if k in metadata then Some(metadata[k]) else None
  }

  function ItemOf(p: Point, metadata: map<nat, Request>): Item {
    Item(p.header, p.index, p.state, p.statusRaw, StatusName(p.statusRaw), Reserved(p.statusRaw),
         Unambiguous(p.statusRaw), Lookup(metadata, p))
  }

  datatype Verdict = Verdict(items: seq<Item>, success: nat, manual: nat, errors: nat)

  function KeyAt(points: seq<Point>, i: nat): nat
    requires i < |points|
  {
    PointKey(points[i].header, points[i].index)
  }

  function KeysBefore(points: seq<Point>, i: nat): set<nat>
    requires i <= |points|
  {
    if i == 0 then {} else KeysBefore(points, i - 1) + {KeyAt(points, i - 1)}
  }

  lemma {:induction false} KeyIsBefore(points: seq<Point>, j: nat, i: nat)
    requires j < i <= |points|
    ensures KeyAt(points, j) in KeysBefore(points, i)
  {
    if j < i - 1 { KeyIsBefore(points, j, i - 1); }
  }

  lemma {:induction false} KeyComesFrom(points: seq<Point>, i: nat, k: nat) returns (j: nat)
    requires i <= |points| && k in KeysBefore(points, i)
    ensures j < i && KeyAt(points, j) == k
  {
    if KeyAt(points, i - 1) == k { j := i - 1; } else { j := KeyComesFrom(points, i - 1, k); }
  }

  lemma {:induction false} KeysOfPrefix(points: seq<Point>, n: nat, i: nat)
    requires i <= n <= |points|
    ensures KeysBefore(points[..n], i) == KeysBefore(points, i)
  {
    if i > 0 { KeysOfPrefix(points, n, i - 1); }
  }

  /** The point cannot be matched: nobody asked for its key, or an earlier point has it. */
  predicate Unmatched(points: seq<Point>, i: nat, metadata: map<nat, Request>)
    requires i < |points|
  {
    KeyAt(points, i) !in metadata || KeyAt(points, i) in KeysBefore(points, i)
  }

  function VerdictOf(points: seq<Point>, metadata: map<nat, Request>): (v: Verdict)
    ensures |v.items| == |points|
    ensures forall i :: 0 <= i < |points| ==> v.items[i] == ItemOf(points[i], metadata)
  {
    if points == [] then Verdict([], 0, 0, 0)
    else
      var n := |points| - 1;
      var v := VerdictOf(points[..n], metadata);
      var p := points[n];
      Verdict(v.items + [ItemOf(p, metadata)],
              v.success + (if Succeeded(p) then 1 else 0),
              v.manual + (if NeedsReadback(p.statusRaw) then 1 else 0),
              v.errors + (if Unmatched(points, n, metadata) then 1 else 0))
  }

  lemma {:induction false} VerdictSnoc(points: seq<Point>, i: nat, metadata: map<nat, Request>)
    requires i < |points|
    ensures var v, p := VerdictOf(points[..i], metadata), points[i];
            VerdictOf(points[..i + 1], metadata)
            == Verdict(v.items + [ItemOf(p, metadata)],
                       v.success + (if Succeeded(p) then 1 else 0),
                       v.manual + (if NeedsReadback(p.statusRaw) then 1 else 0),
                       v.errors + (if Unmatched(points, i, metadata) then 1 else 0))
  {
    var upTo := points[..i + 1];
    assert upTo[..i] == points[..i] && upTo[i] == points[i];
    KeysOfPrefix(points, i + 1, i);
    assert KeyAt(upTo, i) == KeyAt(points, i);
    assert Unmatched(upTo, i, metadata) == Unmatched(points, i, metadata);
  }

  /** `complete`: serialize and count the returned points. */
  method Correlate(points: seq<Point>, metadata: map<nat, Request>) returns (v: Verdict)
    ensures v == VerdictOf(points, metadata)
  {
    v := Verdict([], 0, 0, 0);
    var returnedKeys: set<nat> := {};
    for i := 0 to |points|
      invariant v == VerdictOf(points[..i], metadata)
      invariant forall k :: k in returnedKeys <==> k in metadata && k in KeysBefore(points, i)
    {
      var p := points[i];
      var key := KeyAt(points, i);
      VerdictSnoc(points, i, metadata);
      var unmatched := key !in metadata || key in returnedKeys;
      if key in metadata {
        returnedKeys := returnedKeys + {key};
      }
      v := Verdict(
        v.items + [ItemOf(p, metadata)],
        v.success + (if Succeeded(p) then 1 else 0),
        v.manual + (if NeedsReadback(p.statusRaw) then 1 else 0),
        v.errors + (if unmatched then 1 else 0));
    }
    assert points[..|points|] == points;
  }

  predicate AllMatched(points: seq<Point>, n: nat, metadata: map<nat, Request>)
    requires n <= |points|
  {
    n == 0 || (AllMatched(points, n - 1, metadata) && !Unmatched(points, n - 1, metadata))
  }

  lemma {:induction false} ErrorsUpTo(points: seq<Point>, n: nat, metadata: map<nat, Request>)
    requires n <= |points|
    ensures VerdictOf(points[..n], metadata).errors == 0 <==> AllMatched(points, n, metadata)
  {
    if n > 0 {
      ErrorsUpTo(points, n - 1, metadata);
      VerdictSnoc(points, n - 1, metadata);
    }
  }

  predicate KeysKnown(points: seq<Point>, n: nat, metadata: map<nat, Request>)
    requires n <= |points|
  {
    forall i :: 0 <= i < n ==> KeyAt(points, i) in metadata
  }

  predicate KeysDiffer(points: seq<Point>, n: nat)
    requires n <= |points|
  {
    forall i, j :: 0 <= i < j < n ==> KeyAt(points, i) != KeyAt(points, j)
  }

  lemma {:induction false} MatchedMeans(points: seq<Point>, n: nat, metadata: map<nat, Request>)
    requires n <= |points|
    ensures AllMatched(points, n, metadata) <==> KeysKnown(points, n, metadata) && KeysDiffer(points, n)
  {
    if n > 0 {
      MatchedMeans(points, n - 1, metadata);
      if KeyAt(points, n - 1) in KeysBefore(points, n - 1) {
        var j := KeyComesFrom(points, n - 1, KeyAt(points, n - 1));
        assert KeyAt(points, j) == KeyAt(points, n - 1);
      } else {
        forall j | 0 <= j < n - 1 ensures KeyAt(points, j) != KeyAt(points, n - 1) { KeyIsBefore(points, j, n - 1); }
      }
    }
  }

  /** No correlation error means that every returned key was requested, and none returned twice. */
  lemma {:induction false} ErrorsAre(points: seq<Point>, metadata: map<nat, Request>)
    ensures VerdictOf(points, metadata).errors == 0 <==>
            KeysKnown(points, |points|, metadata) && KeysDiffer(points, |points|)
  {
    ErrorsUpTo(points, |points|, metadata);
    MatchedMeans(points, |points|, metadata);
    assert points[..|points|] == points;
  }

  lemma {:induction false} CountsAre(points: seq<Point>, metadata: map<nat, Request>)
    ensures var v := VerdictOf(points, metadata);
            && v.success <= |points|
            && (v.success == |points| <==> forall i :: 0 <= i < |points| ==> Succeeded(points[i]))
            && (v.manual == 0 <==> forall i :: 0 <= i < |points| ==> !NeedsReadback(points[i].statusRaw))
  {
    if points != [] {
      var head := points[..|points| - 1];
      CountsAre(head, metadata);
      assert forall i :: 0 <= i < |head| ==> head[i] == points[i];
    }
  }

  // ------------------------------------------------------------- correlation

  /** The point reports the request that it carries. */
  predicate Answers(commands: seq<Command>, item: Item) {
    && item.requested.Some?
    && var q := item.requested.value;
       q.ordinal < |commands| && q == RequestOf(commands, q.ordinal) && item.index == q.index
  }

  function Ordinal(item: Item): nat {
    if item.requested.Some? then item.requested.value.ordinal else 0
  }

  predicate AllAnswer(commands: seq<Command>, items: seq<Item>) {
    forall i :: 0 <= i < |items| ==> Answers(commands, items[i])
  }

  predicate OrdinalsDiffer(items: seq<Item>) {
    forall i, j :: 0 <= i < j < |items| ==> Ordinal(items[i]) != Ordinal(items[j])
  }

  /** The reported points are the requested points, each exactly once. */
  predicate OneToOne(commands: seq<Command>, items: seq<Item>) {
    && |items| == |commands|
    && AllAnswer(commands, items)
    && OrdinalsDiffer(items)
  }

  lemma {:induction false} Pigeonhole(taken: set<nat>, n: nat)
    requires |taken| == n && forall o :: o in taken ==> o < n
    ensures taken == UpTo(n)
  {
    assert taken <= UpTo(n);
    assert UpTo(n) == taken + (UpTo(n) - taken);
  }

  function OrdinalsOf(items: seq<Item>): (s: set<nat>)
    ensures forall o :: o in s <==> exists i :: 0 <= i < |items| && Ordinal(items[i]) == o
  {
    set i | 0 <= i < |items| :: Ordinal(items[i])
  }

  lemma {:induction false} OrdinalsCount(items: seq<Item>)
    requires OrdinalsDiffer(items)
    ensures |OrdinalsOf(items)| == |items|
  {
    if items == [] {
      assert OrdinalsOf(items) == {};
    } else {
      var n := |items| - 1;
      OrdinalsCount(items[..n]);
      OrdinalsSnoc(items, n);
    }
  }

  lemma {:induction false} OrdinalsSnoc(items: seq<Item>, n: nat)
    requires n < |items|
    ensures OrdinalsOf(items[..n + 1]) == OrdinalsOf(items[..n]) + {Ordinal(items[n])}
    ensures OrdinalsDiffer(items[..n + 1]) <==> OrdinalsDiffer(items[..n]) && Ordinal(items[n]) !in OrdinalsOf(items[..n])
    ensures items[..|items|] == items
  {
    var head := items[..n];
    assert forall i :: 0 <= i < n ==> head[i] == items[i];
    assert items[..n + 1] == head + [items[n]];
  }

  /** The client's correlation check of a command result. */
  method ValidateCommandCorrelation(commands: seq<Command>, items: seq<Item>) returns (ok: bool)
    ensures ok <==> OneToOne(commands, items)
  {
    if |items| != |commands| {
      return false;
    }
    var seen: set<nat> := {};
    for i := 0 to |items|
      invariant seen == OrdinalsOf(items[..i]) && OrdinalsDiffer(items[..i])
      invariant forall k :: 0 <= k < i ==> Answers(commands, items[k])
      invariant forall o :: o in seen ==> o < |commands|
    {
      OrdinalsSnoc(items, i);
      if items[i].requested.None? {
        return false;
      }
      var q := items[i].requested.value;
      if q.ordinal >= |commands| {
        return false;
      }
      if q.ordinal in seen {
        RepeatBreaks(items, i);
        return false;
      }
      seen := seen + {q.ordinal};
      var expected := commands[q.ordinal];
      if items[i].index != expected.index || q.kind != expected.kind || q.index != expected.index {
        return false;
      }
    }
    assert items[..|items|] == items;
    OrdinalsCount(items);
    Pigeonhole(seen, |commands|);
    ok := seen == UpTo(|commands|);
  }

  lemma {:induction false} RepeatBreaks(items: seq<Item>, i: nat)
    requires i < |items| && Ordinal(items[i]) in OrdinalsOf(items[..i])
    ensures !OrdinalsDiffer(items)
  {
    var head := items[..i];
    var j :| 0 <= j < |head| && Ordinal(head[j]) == Ordinal(items[i]);
    assert Ordinal(items[j]) == Ordinal(items[i]);
  }

  lemma {:induction false} OrdinalsInRange(commands: seq<Command>, items: seq<Item>)
    requires forall i :: 0 <= i < |items| ==> Answers(commands, items[i])
    ensures forall o :: o in OrdinalsOf(items) ==> o < |commands|
  {
    forall o | o in OrdinalsOf(items) ensures o < |commands| {
      var k :| 0 <= k < |items| && Ordinal(items[k]) == o;
      assert Answers(commands, items[k]);
    }
  }

  /** No request is left without its point. */
  lemma {:induction false} EveryRequestIsAnswered(commands: seq<Command>, items: seq<Item>, o: nat) returns (i: nat)
    requires OneToOne(commands, items) && o < |commands|
    ensures i < |items| && items[i].requested == Some(RequestOf(commands, o))
  {
    OrdinalsCount(items);
    OrdinalsInRange(commands, items);
    Pigeonhole(OrdinalsOf(items), |commands|);
    assert o in OrdinalsOf(items);
    var k :| 0 <= k < |items| && Ordinal(items[k]) == o;
    assert Answers(commands, items[k]);
    i := k;
  }

  lemma {:induction false} MatchedPointAnswers(commands: seq<Command>, metadata: map<nat, Request>, p: Point)
    requires GoodBatch(commands) && metadata == MetadataOf(commands) && p.index <= 65535
    ensures PointKey(p.header, p.index) in metadata ==>
      Answers(commands, ItemOf(p, metadata))
      && KeyOf(commands, Ordinal(ItemOf(p, metadata))) == PointKey(p.header, p.index)
  {
    KeysAreOrdinals(commands, metadata);
    var k := PointKey(p.header, p.index);
    if k in metadata {
      var o := metadata[k].ordinal;
      PointKeyUnique(Headers(commands, Rank(commands[o].kind)), commands[o].index, p.header, p.index);
    }
  }

  lemma {:induction false} SameOrdinalSameKey(commands: seq<Command>, metadata: map<nat, Request>, points: seq<Point>, i: nat, j: nat)
    requires GoodBatch(commands) && metadata == MetadataOf(commands) && LibraryPoints(points)
    requires i < |points| && j < |points| && KeyAt(points, i) in metadata && KeyAt(points, j) in metadata
    ensures var items := VerdictOf(points, metadata).items;
            Ordinal(items[i]) == Ordinal(items[j]) <==> KeyAt(points, i) == KeyAt(points, j)
  {
    MatchedPointAnswers(commands, metadata, points[i]);
    MatchedPointAnswers(commands, metadata, points[j]);
  }

  lemma {:induction false} KnownKeysAnswer(commands: seq<Command>, metadata: map<nat, Request>, points: seq<Point>)
    requires GoodBatch(commands) && metadata == MetadataOf(commands) && LibraryPoints(points)
    ensures KeysKnown(points, |points|, metadata) <==> AllAnswer(commands, VerdictOf(points, metadata).items)
  {
    var items := VerdictOf(points, metadata).items;
    forall i | 0 <= i < |points| ensures Answers(commands, items[i]) <==> KeyAt(points, i) in metadata {
      assert items[i] == ItemOf(points[i], metadata);
      MatchedPointAnswers(commands, metadata, points[i]);
    }
    if AllAnswer(commands, items) {
      forall i | 0 <= i < |points| ensures KeyAt(points, i) in metadata { assert Answers(commands, items[i]); }
    }
  }

  lemma {:induction false} DistinctKeysDistinctOrdinals(
    commands: seq<Command>, metadata: map<nat, Request>, points: seq<Point>)
    requires GoodBatch(commands) && metadata == MetadataOf(commands) && LibraryPoints(points)
    requires KeysKnown(points, |points|, metadata)
    ensures KeysDiffer(points, |points|) <==> OrdinalsDiffer(VerdictOf(points, metadata).items)
  {
    var items := VerdictOf(points, metadata).items;
    if KeysDiffer(points, |points|) {
      forall i, j | 0 <= i < j < |items| ensures Ordinal(items[i]) != Ordinal(items[j]) {
        SameOrdinalSameKey(commands, metadata, points, i, j);
      }
    }
    if OrdinalsDiffer(items) {
      forall i, j | 0 <= i < j < |points| ensures KeyAt(points, i) != KeyAt(points, j) {
        SameOrdinalSameKey(commands, metadata, points, i, j);
      }
    }
  }

  /**
   * The host's own count decides what the client's check decides: for a parsed batch and any
   * points the library returns, they are as many as requested without a correlation error
   * exactly when they correspond one to one to the requests.
   */
  lemma {:induction false} CountDecidesCorrelation(commands: seq<Command>, metadata: map<nat, Request>, points: seq<Point>)
    requires GoodBatch(commands) && metadata == MetadataOf(commands) && LibraryPoints(points)
    ensures var v := VerdictOf(points, metadata);
            |points| == |commands| && v.errors == 0 <==> OneToOne(commands, v.items)
  {
    ErrorsAre(points, metadata);
    KnownKeysAnswer(commands, metadata, points);
    if KeysKnown(points, |points|, metadata) {
      DistinctKeysDistinctOrdinals(commands, metadata, points);
    }
  }
}
