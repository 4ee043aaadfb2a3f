// The measurement capture as a state machine.  Each section of the source that
// holds the mutex is one step; a run is any interleaving of producer steps, worker
// steps and RPC calls, where `end` is two steps with its wait in between.

module CaptureModel {
  import opened Common
  import opened CaptureConfig
  import opened JsonText

  datatype Status = Idle | Active | Finalizing | Finalized | TimedOut | Aborted

  datatype Reason =
    | QueueOverflow | ProcessingFailure | DimensionLimit | CounterOverflow
    | SequenceMismatch | DigestFailure | StaticSetMismatch
    | DeadlineExceeded | DrainTimeout | SessionDisconnected | HostShutdown

  /** The text "cap-<session>-<number>". */
  datatype CaptureId = CaptureId(session: nat, number: nat)

  datatype Measurement = Measurement(
    source: Source, kind: string, group: nat, variation: nat, index: Option<nat>, value: Json)

  type Point = (string, nat)

  datatype Sample =
    | UnexpectedPoint(m: Measurement)
    | SequenceDifference(expectedTotal: nat, receivedTotal: nat, expectedSha: string, receivedSha: string)

  /** What happened in the current capture.  No step reads it. */
  datatype Log = Log(
    offered: seq<Measurement>, enqueued: seq<Measurement>, processed: seq<Measurement>,
    hashed: seq<Measurement>, discarded: seq<Measurement>, lost: nat, faults: nat)

  const EMPTY_LOG := Log([], [], [], [], [], 0, 0)

  datatype Times = Times(started: nat, deadline: nat, ended: nat)

  datatype Counts = Counts(
    offered: nat, received: nat, fragments: nat, overflow: nat, discarded: nat, maxDepth: nat)

  datatype Cover = Cover(expected: nat, seen: set<Point>, unique: nat, duplicates: nat, unmatched: nat)

  /** The digest accumulator (its text so far), the finished digest, and the comparison. */
  datatype Sequence = Sequence(digest: Option<string>, sha: Option<string>, matched: Option<bool>)

  datatype Detail = Detail(samples: seq<Sample>, byKind: map<string, nat>, byVariation: map<(nat, nat), nat>)

  datatype Capture = Capture(
    status: Status, accepting: bool, config: Config, id: CaptureId, nextNumber: nat,
    times: Times, queue: seq<Measurement>, counts: Counts, cover: Cover, sequence: Sequence,
    detail: Detail, reasons: seq<Reason>, log: Log)

  const NO_CONFIG := Config(Observation, [], [], None, 100, 4096, 600_000)

  function Reset(nextNumber: nat): Capture {
    Capture(Idle, false, NO_CONFIG, CaptureId(0, 0), nextNumber, Times(0, 0, 0), [],
            Counts(0, 0, 0, 0, 0, 0), Cover(0, {}, 0, 0, 0), Sequence(None, None, None),
            Detail([], map[], map[]), [], EMPTY_LOG)
  }

  // ---------------------------------------------------------- small pieces

  function With(reasons: seq<Reason>, r: Reason): (t: seq<Reason>)
    ensures forall q :: q in t <==> q in reasons || q == r
    ensures Distinct(reasons) ==> Distinct(t)
  {
    if r in reasons then reasons else reasons + [r]
  }

  function Noted(reasons: seq<Reason>, r: Option<Reason>): (t: seq<Reason>)
    ensures forall q :: q in t <==> q in reasons || r == Some(q)
    ensures Distinct(reasons) ==> Distinct(t)
  {
    if r.None? then reasons else With(reasons, r.value)
  }

  /** A 64-bit counter stops at its maximum and the capture is marked invalid. */
  function Next(v: nat): nat {
    if v >= MAX64 then v else v + 1
  }

  function Stuck(v: nat): Option<Reason> {
    if v >= MAX64 then Some(CounterOverflow) else None
  }

  function BumpKey<K>(d: map<K, nat>, k: K): map<K, nat> {
    if k in d then d[k := Next(d[k])] else if |d| >= 256 then d else d[k := 1]
  }

  function KeyTrouble<K>(d: map<K, nat>, k: K): Option<Reason> {
    if k in d then Stuck(d[k]) else if |d| >= 256 then Some(DimensionLimit) else None
  }

  function Decimal(n: nat): string {
    if n < 10 then ['0' + (n as char)] else Decimal(n / 10) + ['0' + ((n % 10) as char)]
  }

  /** The canonical event record: a compact JSON array and a line feed. */
  function RecordJson(m: Measurement): Json {
    JArray([JString(m.kind), if m.index.Some? then JNumber(Decimal(m.index.value)) else JNull, m.value])
  }

  function Record(m: Measurement): string {
    Print(RecordJson(m)) + "\n"
  }

  function Records(ms: seq<Measurement>): string {
    if ms == [] then "" else Records(ms[..|ms| - 1]) + Record(ms[|ms| - 1])
  }

  predicate Covered(ranges: seq<PointRange>, m: Measurement) {
    m.index.Some? && exists r :: 0 <= r < |ranges| && InRange(ranges[r], m.kind, m.index.value)
  }

  function PointOf(m: Measurement): Point
    requires m.index.Some?
  {
    (m.kind, m.index.value)
  }

  function Missing(c: Cover): nat {
    if c.expected >= c.unique then c.expected - c.unique else 0
  }

  // ----------------------------------------------------------- mutex sections

  function Expire(c: Capture, now: nat): (e: Capture)
    ensures e.status == c.status || (c.status == Active && e.status == TimedOut)
  {
    if c.status == Active && now >= c.times.deadline then
      c.(accepting := false, status := TimedOut, times := c.times.(ended := c.times.deadline),
         reasons := With(c.reasons, DeadlineExceeded))
    else c
  }

  function Begin(c: Capture, session: nat, config: Config, now: nat, digestReady: bool): Capture {
    var e := Expire(c, now);
    if e.status == Active || e.status == Finalizing || e.queue != [] then e
    else if config.mode == EventSequence && !digestReady then Reset(e.nextNumber + 1)
    else
      Reset(e.nextNumber + 1).(
        status := Active, accepting := true, config := config, id := CaptureId(session, e.nextNumber + 1),
        times := Times(now, now + config.durationMs * 1_000_000, 0),
        cover := Cover(if WellOrdered(config.ranges) then Total(config.ranges) else 0, {}, 0, 0, 0),
        sequence := Sequence(if config.mode == EventSequence then Some("") else None, None, None))
  }

  function Fragment(c: Capture, source: Source, now: nat): (t: Capture)
    ensures t.status == Expire(c, now).status
  {
    var e := Expire(c, now);
    if !e.accepting || source !in e.config.sources then e
    else e.(counts := e.counts.(fragments := Next(e.counts.fragments)),
            reasons := Noted(e.reasons, Stuck(e.counts.fragments)))
  }

  /** `record_object`: a producer offers a measurement. */
  function Offer(c: Capture, m: Measurement, now: nat): (t: Capture)
    ensures t.status == Expire(c, now).status
  {
    var e := Expire(c, now);
    if !e.accepting || m.source !in e.config.sources then e
    else
      var counts := e.counts.(offered := Next(e.counts.offered));
      var reasons := Noted(e.reasons, Stuck(e.counts.offered));
      var log := e.log.(offered := e.log.offered + [m]);
      if |e.queue| >= e.config.queueCapacity then
        e.(counts := counts.(overflow := Next(counts.overflow)),
           reasons := With(Noted(reasons, Stuck(counts.overflow)), QueueOverflow),
           log := log.(lost := log.lost + 1))
      else
        e.(queue := e.queue + [m],
           counts := counts.(maxDepth := if counts.maxDepth > |e.queue| then counts.maxDepth else |e.queue| + 1),
           reasons := reasons,
           log := log.(enqueued := log.enqueued + [m]))
  }

  function CountReceived(c: Capture, m: Measurement): (d: Capture)
    ensures d.status == c.status && d.config == c.config && d.log.offered == c.log.offered
  {
    var key := (m.group, m.variation);
    c.(counts := c.counts.(received := Next(c.counts.received)),
       detail := c.detail.(byKind := BumpKey(c.detail.byKind, m.kind), byVariation := BumpKey(c.detail.byVariation, key)),
       reasons := Noted(Noted(Noted(c.reasons, Stuck(c.counts.received)), KeyTrouble(c.detail.byKind, m.kind)),
                        KeyTrouble(c.detail.byVariation, key)),
       log := c.log.(processed := c.log.processed + [m]))
  }

  function MatchPoint(c: Capture, m: Measurement): (d: Capture)
    ensures d.status == c.status && d.log == c.log
  {
    if !Covered(c.config.ranges, m) then
      c.(cover := c.cover.(unmatched := Next(c.cover.unmatched)),
         reasons := Noted(c.reasons, Stuck(c.cover.unmatched)),
         detail := if |c.detail.samples| >= c.config.sampleLimit then c.detail
                   else c.detail.(samples := c.detail.samples + [UnexpectedPoint(m)]))
    else if PointOf(m) in c.cover.seen then
      c.(cover := c.cover.(duplicates := Next(c.cover.duplicates)),
         reasons := Noted(c.reasons, Stuck(c.cover.duplicates)))
    else
      c.(cover := c.cover.(seen := c.cover.seen + {PointOf(m)}, unique := Next(c.cover.unique)),
         reasons := Noted(c.reasons, Stuck(c.cover.unique)))
  }

  /** The digest update, or the handler around `process_locked` when it throws. */
  function HashRecord(c: Capture, m: Measurement, fault: bool): (d: Capture)
    ensures d.status == c.status && d.log.offered == c.log.offered
  {
    if fault || c.sequence.digest.None? then
      c.(counts := c.counts.(overflow := Next(c.counts.overflow)),
         reasons := Noted(With(c.reasons, ProcessingFailure), Stuck(c.counts.overflow)),
         log := c.log.(faults := c.log.faults + 1))
    else
      c.(sequence := c.sequence.(digest := Some(c.sequence.digest.value + Record(m))),
         log := c.log.(hashed := c.log.hashed + [m]))
  }

  function Process(c: Capture, m: Measurement, fault: bool): (d: Capture)
    ensures d.status == c.status && d.log.offered == c.log.offered
  {
    var d := CountReceived(c, m);
    match d.config.mode
    case EventSequence => HashRecord(d, m, fault)
    case StaticSet => MatchPoint(d, m)
    case Observation => d
  }

  /** One turn of the worker's loop. */
  function Work(c: Capture, now: nat, fault: bool): (t: Capture)
    ensures t.status == Expire(c, now).status
  {
    var e := Expire(c, now);
    if e.queue == [] then e else Process(e.(queue := e.queue[1..]), e.queue[0], fault)
  }

  function FinalizeSequence(c: Capture, hash: string -> string, fault: bool): (d: Capture)
    ensures d == c.(sequence := d.sequence, reasons := d.reasons, detail := d.detail)
    ensures forall q :: q in d.reasons <==> q in c.reasons || (q in d.reasons && (q == DigestFailure || q == SequenceMismatch))
  {
    if c.config.mode != EventSequence || c.sequence.sha.Some? then c
    else if fault || c.sequence.digest.None? || c.config.manifest.None? then
      c.(sequence := Sequence(None, None, Some(false)), reasons := With(c.reasons, DigestFailure))
    else
      var manifest := c.config.manifest.value;
      var sha := hash(c.sequence.digest.value);
      var matched := c.counts.received == manifest.eventTotal && sha == Lower(manifest.sha256);
      var done := c.(sequence := Sequence(None, Some(sha), Some(matched)));
      if matched then done
      else
        done.(reasons := With(c.reasons, SequenceMismatch),
              detail := if |c.detail.samples| >= c.config.sampleLimit then c.detail
                        else c.detail.(samples := c.detail.samples
                          + [SequenceDifference(manifest.eventTotal, c.counts.received, Lower(manifest.sha256), sha)]))
  }

  function FinalizeStatic(c: Capture): Capture {
    if c.config.mode == StaticSet && (Missing(c.cover) != 0 || c.cover.duplicates != 0 || c.cover.unmatched != 0)
    then c.(reasons := With(c.reasons, StaticSetMismatch))
    else c
  }

  predicate Refers(c: Capture, id: CaptureId) {
    c.status != Idle && id == c.id
  }

  /** `end` up to its wait. */
  function EndEnter(c: Capture, id: CaptureId, now: nat): Capture {
    var e := Expire(c, now);
    if Refers(e, id) && e.status == Active then e.(status := Finalizing, accepting := false) else e
  }

  function Discard(c: Capture, now: nat, reason: Reason): Capture {
    c.(accepting := false, status := Aborted, times := c.times.(ended := now), queue := [],
       counts := c.counts.(discarded := c.counts.discarded + |c.queue|),
       reasons := With(c.reasons, reason),
       log := c.log.(discarded := c.log.discarded + c.queue))
  }

  /** `end` after its wait: the wait succeeded exactly when the queue is empty now. */
  function EndLeave(c: Capture, now: nat, hash: string -> string, fault: bool): Capture {
    var d :=
      if c.queue != [] then Discard(c, now, DrainTimeout)
      else if c.status == Finalizing then
        var f := FinalizeStatic(FinalizeSequence(c, hash, fault));
        f.(status := Finalized, times := f.times.(ended := now))
      else if (c.status == TimedOut || c.status == Aborted) && c.times.ended == 0 then
        c.(times := c.times.(ended := now))
      else c;
    if d.status == TimedOut || d.status == Aborted then FinalizeSequence(d, hash, fault) else d
  }

  function Abort(c: Capture, reason: Reason, now: nat, hash: string -> string, fault: bool): Capture {
    if c.status == Active || c.status == Finalizing || c.status == TimedOut
    then FinalizeSequence(Discard(c, now, reason), hash, fault)
    else c
  }

  // ------------------------------------------------------------------- runs

  datatype Event =
    | BeginCall(session: nat, config: Config, now: nat, digestReady: bool)
    | ProgressCall(id: CaptureId, now: nat)
    | EndCall(id: CaptureId, now: nat)
    | EndReturn(now: nat, finishFault: bool)
    | AbortCall(reason: Reason, now: nat, finishFault: bool)
    | FragmentSeen(source: Source, now: nat)
    | ObjectSeen(m: Measurement, now: nat)
    | WorkerTurn(now: nat, fault: bool)

  /** `waiting`: the RPC thread is inside `end`'s wait, so it makes no other call. */
  datatype World = World(c: Capture, waiting: bool)

  const START := World(Reset(0), false)

  function Step(w: World, e: Event, hash: string -> string): World {
    match e
    case BeginCall(session, config, now, ready) =>
      if w.waiting then w else w.(c := Begin(w.c, session, config, now, ready))
    case ProgressCall(id, now) => if w.waiting then w else w.(c := Expire(w.c, now))
    case EndCall(id, now) =>
      if w.waiting then w else World(EndEnter(w.c, id, now), Refers(Expire(w.c, now), id))
    case EndReturn(now, fault) => if w.waiting then World(EndLeave(w.c, now, hash, fault), false) else w
    case AbortCall(reason, now, fault) => if w.waiting then w else w.(c := Abort(w.c, reason, now, hash, fault))
    case FragmentSeen(source, now) => w.(c := Fragment(w.c, source, now))
    case ObjectSeen(m, now) => w.(c := Offer(w.c, m, now))
    case WorkerTurn(now, fault) => w.(c := Work(w.c, now, fault))
  }

  function Run(events: seq<Event>, hash: string -> string): World {
    if events == [] then START else Step(Run(events[..|events| - 1], hash), events[|events| - 1], hash)
  }

  // --------------------------------------------------- what callers guarantee

  /** A manifest as it travels in a snapshot. */
  function Raw(m: Manifest): RawManifest {
    RawManifest(m.generator, m.generatorVersion, m.scenarioId, m.seed, m.startSequence, m.endSequence, m.eventTotal,
                m.sha256, m.matchRule)
  }

  /** What the parser lets through. */
  ghost predicate GoodConfig(c: Config) {
    && 1 <= |c.sources| <= 2 && (forall i, j :: 0 <= i < j < |c.sources| ==> c.sources[i] != c.sources[j])
    && c.sampleLimit <= 1024 && 1 <= c.queueCapacity <= 65536 && c.durationMs >= 100
    && WellOrdered(c.ranges) && Disjoint(c.ranges) && Total(c.ranges) <= MAX_EXPECTED_POINTS
    && (c.mode != StaticSet ==> c.ranges == [])
    && (c.mode == EventSequence <==> c.manifest.Some?)
    && (c.manifest.Some? ==> ValidManifest(Raw(c.manifest.value)) && LowerSha256(c.manifest.value.sha256)
                             && Lower(c.manifest.value.sha256) == c.manifest.value.sha256)
  }

  lemma {:induction false} ParsedConfigIsGood(p: Params)
    requires ValidParams(p)
    ensures GoodConfig(MeaningOf(p))
  {
    var c := MeaningOf(p);
    forall i, j | 0 <= i < j < |c.sources| ensures c.sources[i] != c.sources[j] {
      assert SourceOf(p.sources[i]).Some? && SourceOf(p.sources[j]).Some?;
    }
    if c.mode == StaticSet {
      var typed := Typed(p.expected.value.ranges);
      SortThenCompareDecides(typed);
      SortKeepsDisjointness(typed);
      SortKeepsTotal(typed);
    } else {
      assert Total([]) == 0;
    }
    if c.mode == EventSequence {
      LowerIsLower(p.expected.value.manifest.sha256);
    }
  }

  lemma {:induction false} SortKeepsTotal(rs: seq<PointRange>)
    requires WellOrdered(rs)
    ensures WellOrdered(SortRanges(rs)) && Total(SortRanges(rs)) == Total(rs)
  {
    SortKeepsOrder(rs);
    if rs != [] {
      SortKeepsTotal(rs[1..]);
      InsertAddsSize(rs[0], SortRanges(rs[1..]));
      TotalCons(rs);
    }
  }

  lemma {:induction false} InsertAddsSize(r: PointRange, rs: seq<PointRange>)
    requires WellOrdered(rs) && r.start <= r.stop
    ensures WellOrdered(Insert(r, rs, Before)) && Total(Insert(r, rs, Before)) == Size(r) + Total(rs)
  {
    var t := Insert(r, rs, Before);
    if rs == [] || Before(r, rs[0]) {
      assert t == [r] + rs && t[1..] == rs;
      TotalCons(t);
    } else {
      InsertAddsSize(r, rs[1..]);
      assert t == [rs[0]] + Insert(r, rs[1..], Before) && t[1..] == Insert(r, rs[1..], Before);
      TotalCons(t);
      TotalCons(rs);
    }
  }

  ghost predicate GoodEvent(e: Event) {
    match e
    case BeginCall(session, config, now, ready) => session > 0 && GoodConfig(config)
    case AbortCall(reason, now, fault) => reason == SessionDisconnected || reason == HostShutdown
    case ObjectSeen(m, now) => m.kind != "" && WellFormed(m.value)
    case _ => true
  }

  ghost predicate GoodEvents(events: seq<Event>) {
    forall i :: 0 <= i < |events| ==> GoodEvent(events[i])
  }
}
