// What a capture's verdict proves about what was offered to it.

module CaptureVerdict {
  import opened Common
  import opened CaptureConfig
  import opened CaptureModel
  import opened CaptureInvariant
  import opened JsonText

  predicate Valid(c: Capture) {
    c.status == Finalized && c.reasons == []
  }

  // ------------------------------------------------ the window of a capture

  predicate StartsAnew(w: World, now: nat) {
    && !w.waiting && Expire(w.c, now).status != Active && Expire(w.c, now).status != Finalizing && w.c.queue == []
  }

  /**
   * The measurements offered to the current capture, read off the run: those recorded while it
   * was active, before its deadline, from one of its sources, since the `begin` that started it.
   */
  function Window(events: seq<Event>, hash: string -> string): seq<Measurement> {
    if events == [] then []
    else
      var head, last := events[..|events| - 1], events[|events| - 1];
      var w := Run(head, hash);
      if last.BeginCall? && StartsAnew(w, last.now) then []
      else if last.ObjectSeen? && w.c.status == Active && last.now < w.c.times.deadline
              && last.m.source in w.c.config.sources then Window(head, hash) + [last.m]
      else Window(head, hash)
  }

  lemma {:induction false} StepLogsWindow(w: World, e: Event, hash: string -> string, before: seq<Measurement>)
    requires Lifecycle(w.c) && w.c.log.offered == before
    ensures Step(w, e, hash).c.log.offered ==
      if e.BeginCall? && StartsAnew(w, e.now) then []
      else if e.ObjectSeen? && w.c.status == Active && e.now < w.c.times.deadline
              && e.m.source in w.c.config.sources then before + [e.m]
      else before
  {
    if e.WorkerTurn? {
      WorkKeepsOffered(w.c, e.now, e.fault);
    } else if e.EndReturn? || e.AbortCall? {
      EndKeepsOffered(w, e, hash);
    }
  }

  lemma {:induction false} WorkKeepsOffered(c: Capture, now: nat, fault: bool)
    ensures Work(c, now, fault).log.offered == c.log.offered
  {
  }

  lemma {:induction false} EndKeepsOffered(w: World, e: Event, hash: string -> string)
    requires e.EndReturn? || e.AbortCall?
    ensures Step(w, e, hash).c.log.offered == w.c.log.offered
  {
  }

  lemma {:induction false} LogIsWindow(events: seq<Event>, hash: string -> string)
    requires GoodEvents(events)
    ensures Run(events, hash).c.log.offered == Window(events, hash)
  {
    if events != [] {
      var head := events[..|events| - 1];
      assert GoodEvents(head);
      LogIsWindow(head, hash);
      RunKeeps(head, hash);
      StepLogsWindow(Run(head, hash), events[|events| - 1], hash, Window(head, hash));
    }
  }

  // ----------------------------------------------------- exactly one of each

  predicate Expected(ranges: seq<PointRange>, p: Point) {
    exists r :: 0 <= r < |ranges| && InRange(ranges[r], p.0, p.1)
  }

  function CountOf(ms: seq<Measurement>, p: Point): nat {
    if ms == [] then 0
    else CountOf(ms[..|ms| - 1], p) + (if ms[|ms| - 1].index.Some? && PointOf(ms[|ms| - 1]) == p then 1 else 0)
  }

  /** One measurement for each expected point, and nothing else. */
  ghost predicate ExactlyOnce(ranges: seq<PointRange>, ms: seq<Measurement>) {
    && (forall i :: 0 <= i < |ms| ==> ms[i].index.Some?)
    && (forall p: Point :: CountOf(ms, p) == if Expected(ranges, p) then 1 else 0)
  }

  function CoverSet(ranges: seq<PointRange>): set<Point> {
    set r, i | 0 <= r < |ranges| && ranges[r].start <= i <= ranges[r].stop :: (ranges[r].kind, i)
  }

  lemma {:induction false} InCover(ranges: seq<PointRange>, p: Point)
    ensures p in CoverSet(ranges) <==> Expected(ranges, p)
  {
    if Expected(ranges, p) {
      var r :| 0 <= r < |ranges| && InRange(ranges[r], p.0, p.1);
      assert p == (ranges[r].kind, p.1);
    }
  }

  function RangeSet(kind: string, start: nat, stop: nat): set<Point> {
    set i | start <= i <= stop :: (kind, i)
  }

  lemma {:induction false} RangeSize(kind: string, start: nat, stop: nat)
    requires start <= stop
    ensures |RangeSet(kind, start, stop)| == stop - start + 1
    decreases stop - start
  {
    if start == stop {
      assert RangeSet(kind, start, stop) == {(kind, start)};
    } else {
      RangeSize(kind, start, stop - 1);
      assert RangeSet(kind, start, stop) == RangeSet(kind, start, stop - 1) + {(kind, stop)};
    }
  }

  /** Disjoint ranges hold as many points as their sizes add up to. */
  lemma {:induction false} CoverSize(ranges: seq<PointRange>)
    requires WellOrdered(ranges) && Disjoint(ranges)
    ensures |CoverSet(ranges)| == Total(ranges)
  {
    if ranges == [] {
      assert CoverSet(ranges) == {};
    } else {
      var n := |ranges| - 1;
      var head, last := ranges[..n], ranges[n];
      assert Disjoint(head);
      CoverSize(head);
      RangeSize(last.kind, last.start, last.stop);
      var tail := RangeSet(last.kind, last.start, last.stop);
      CoverSplits(ranges);
      assert CoverSet(head) !! tail by {
        forall p | p in CoverSet(head) && p in tail ensures false {
          InCover(head, p);
          var r :| 0 <= r < |head| && InRange(head[r], p.0, p.1);
          assert InRange(ranges[r], p.0, p.1) && InRange(ranges[n], p.0, p.1);
        }
      }
    }
  }

  lemma {:induction false} CoverSplits(ranges: seq<PointRange>)
    requires ranges != []
    ensures var last := ranges[|ranges| - 1];
            CoverSet(ranges) == CoverSet(ranges[..|ranges| - 1]) + RangeSet(last.kind, last.start, last.stop)
  {
    var n := |ranges| - 1;
    var head, tail := ranges[..n], RangeSet(ranges[n].kind, ranges[n].start, ranges[n].stop);
    forall p: Point ensures p in CoverSet(ranges) <==> p in CoverSet(head) || p in tail {
      InCover(ranges, p);
      InCover(head, p);
      assert p in tail <==> InRange(ranges[n], p.0, p.1) by {
        if InRange(ranges[n], p.0, p.1) { assert p == (ranges[n].kind, p.1); }
      }
      if Expected(ranges, p) {
        var r :| 0 <= r < |ranges| && InRange(ranges[r], p.0, p.1);
        assert r == n || InRange(head[r], p.0, p.1);
      }
      if Expected(head, p) {
        var r :| 0 <= r < |head| && InRange(head[r], p.0, p.1);
        assert InRange(ranges[r], p.0, p.1);
      }
    }
  }

  lemma {:induction false} SeenMeansCounted(ranges: seq<PointRange>, ms: seq<Measurement>, p: Point)
    ensures p in SeenIn(ranges, ms) <==> Expected(ranges, p) && CountOf(ms, p) > 0
  {
    if ms != [] {
      SeenMeansCounted(ranges, ms[..|ms| - 1], p);
    }
  }

  lemma {:induction false} NoRepeatsMeansAtMostOnce(ranges: seq<PointRange>, ms: seq<Measurement>, p: Point)
    requires Repeats(ranges, ms) == 0 && Expected(ranges, p)
    ensures CountOf(ms, p) <= 1
  {
    if ms != [] {
      NoRepeatsMeansAtMostOnce(ranges, ms[..|ms| - 1], p);
      SeenMeansCounted(ranges, ms[..|ms| - 1], p);
    }
  }

  lemma {:induction false} AtMostOnceMeansNoRepeats(ranges: seq<PointRange>, ms: seq<Measurement>)
    requires forall p: Point :: Expected(ranges, p) ==> CountOf(ms, p) <= 1
    ensures Repeats(ranges, ms) == 0
  {
    if ms != [] {
      var head, last := ms[..|ms| - 1], ms[|ms| - 1];
      forall p: Point | Expected(ranges, p) ensures CountOf(head, p) <= 1 {
        assert CountOf(head, p) <= CountOf(ms, p);
      }
      AtMostOnceMeansNoRepeats(ranges, head);
      if Covered(ranges, last) {
        SeenMeansCounted(ranges, head, PointOf(last));
        assert CountOf(ms, PointOf(last)) <= 1;
      }
    }
  }

  lemma {:induction false} StraysAre(ranges: seq<PointRange>, ms: seq<Measurement>)
    ensures Strays(ranges, ms) == 0 <==> forall i :: 0 <= i < |ms| ==> Covered(ranges, ms[i])
  {
    if ms != [] {
      var head := ms[..|ms| - 1];
      StraysAre(ranges, head);
      assert forall i :: 0 <= i < |head| ==> head[i] == ms[i];
    }
  }

  lemma {:induction false} CountPositive(ms: seq<Measurement>, i: nat)
    requires i < |ms| && ms[i].index.Some?
    ensures CountOf(ms, PointOf(ms[i])) > 0
  {
    if i < |ms| - 1 {
      CountPositive(ms[..|ms| - 1], i);
    }
  }

  lemma {:induction false} NotCounted(ms: seq<Measurement>, p: Point)
    requires forall i :: 0 <= i < |ms| ==> ms[i].index.None? || PointOf(ms[i]) != p
    ensures CountOf(ms, p) == 0
  {
    if ms != [] {
      NotCounted(ms[..|ms| - 1], p);
    }
  }

  /** The three counters the native verdict looks at decide `ExactlyOnce`. */
  lemma {:induction false} CountersDecide(ranges: seq<PointRange>, ms: seq<Measurement>)
    requires WellOrdered(ranges) && Disjoint(ranges)
    ensures |SeenIn(ranges, ms)| <= Total(ranges)
    ensures ExactlyOnce(ranges, ms)
       <==> |SeenIn(ranges, ms)| == Total(ranges) && Repeats(ranges, ms) == 0 && Strays(ranges, ms) == 0
  {
    var seen, cover := SeenIn(ranges, ms), CoverSet(ranges);
    CoverSize(ranges);
    forall p ensures p in seen <==> p in cover && CountOf(ms, p) > 0 {
      SeenMeansCounted(ranges, ms, p);
      InCover(ranges, p);
    }
    assert seen <= cover;
    Cardinality(seen, cover);
    StraysAre(ranges, ms);
    if ExactlyOnce(ranges, ms) {
      AtMostOnceMeansNoRepeats(ranges, ms);
      forall p | p in cover ensures p in seen { InCover(ranges, p); }
      assert seen == cover;
      forall i | 0 <= i < |ms| ensures Covered(ranges, ms[i]) {
        CountPositive(ms, i);
        assert Expected(ranges, PointOf(ms[i]));
      }
    }
    if seen == cover && Repeats(ranges, ms) == 0 && Strays(ranges, ms) == 0 {
      forall p: Point ensures CountOf(ms, p) == if Expected(ranges, p) then 1 else 0 {
        InCover(ranges, p);
        if Expected(ranges, p) {
          NoRepeatsMeansAtMostOnce(ranges, ms, p);
        } else {
          NotCounted(ms, p);
        }
      }
    }
  }

  lemma {:induction false} Cardinality(a: set<Point>, b: set<Point>)
    requires a <= b
    ensures |a| <= |b| && (|a| == |b| <==> a == b)
  {
    assert b == a + (b - a);
  }

  // ------------------------------------------------------------ static sets

  lemma {:induction false} EndedCaptureProcessedAll(c: Capture, hash: string -> string)
    requires Inv(c, hash) && c.status == Finalized && QueueOverflow !in c.reasons
    ensures c.log.processed == c.log.offered
  {
    assert c.log.discarded == [] && c.queue == [];
    assert c.log.processed + [] + [] == c.log.processed;
  }

  /**
   * The static verdict.  A finalized static-set capture is valid exactly when it was offered one
   * measurement for each configured point and nothing else, and no bounded store overflowed.
   */
  lemma {:induction false} StaticVerdict(events: seq<Event>, hash: string -> string)
    requires GoodEvents(events)
    requires var c := Run(events, hash).c; c.status == Finalized && c.config.mode == StaticSet
    ensures var c := Run(events, hash).c;
            Valid(c) <==> && ExactlyOnce(c.config.ranges, Window(events, hash))
                          && QueueOverflow !in c.reasons && DimensionLimit !in c.reasons
                          && CounterOverflow !in c.reasons
  {
    var c := Run(events, hash).c;
    RunKeeps(events, hash);
    LogIsWindow(events, hash);
    CountersDecide(c.config.ranges, c.log.processed);
    if QueueOverflow !in c.reasons {
      EndedCaptureProcessedAll(c, hash);
      MismatchIsExact(c, hash);
      if StaticSetMismatch !in c.reasons && DimensionLimit !in c.reasons && CounterOverflow !in c.reasons {
        OnlyTheseReasons(c, hash);
      }
    }
  }

  lemma {:induction false} MismatchIsExact(c: Capture, hash: string -> string)
    requires Inv(c, hash) && c.status == Finalized && c.config.mode == StaticSet
    requires |SeenIn(c.config.ranges, c.log.processed)| <= Total(c.config.ranges)
    ensures StaticSetMismatch !in c.reasons
       <==> && |SeenIn(c.config.ranges, c.log.processed)| == Total(c.config.ranges)
            && Repeats(c.config.ranges, c.log.processed) == 0 && Strays(c.config.ranges, c.log.processed) == 0
  {
  }

  lemma {:induction false} OnlyTheseReasons(c: Capture, hash: string -> string)
    requires Inv(c, hash) && c.status == Finalized && c.config.mode == StaticSet
    requires QueueOverflow !in c.reasons && StaticSetMismatch !in c.reasons
    requires DimensionLimit !in c.reasons && CounterOverflow !in c.reasons
    ensures c.reasons == []
  {
    assert c.log.faults == 0 && c.log.lost == 0;
    forall q: Reason ensures q !in c.reasons {
      AbsentReasons(c, hash, q);
    }
    SomeReason(c.reasons);
  }

  lemma {:induction false} SomeReason(reasons: seq<Reason>)
    ensures reasons != [] ==> exists q :: q in reasons
  {
    if reasons != [] { assert reasons[0] in reasons; }
  }

  lemma {:induction false} AbsentReasons(c: Capture, hash: string -> string, q: Reason)
    requires Inv(c, hash) && c.status == Finalized && c.config.mode == StaticSet
    requires c.log.faults == 0 && c.log.lost == 0
    ensures q in c.reasons ==> q == StaticSetMismatch || q == DimensionLimit || q == CounterOverflow
  {
  }

  // ------------------------------------------------------------ conservation

  /** Conservation and order, in every reachable state. */
  lemma {:induction false} Conservation(events: seq<Event>, hash: string -> string)
    requires GoodEvents(events)
    ensures var c := Run(events, hash).c;
            && c.log.processed <= c.log.enqueued
            && |c.queue| <= c.counts.maxDepth && (c.status != Idle ==> c.counts.maxDepth <= c.config.queueCapacity)
            && (CounterOverflow !in c.reasons ==>
                  && c.counts.offered + c.log.faults
                       == c.counts.received + |c.queue| + c.counts.overflow + c.counts.discarded
                  && (c.config.mode == StaticSet ==>
                        c.counts.received == c.cover.unique + c.cover.duplicates + c.cover.unmatched))
            && (ProcessingFailure !in c.reasons ==> c.log.faults == 0)
  {
    var c := Run(events, hash).c;
    RunKeeps(events, hash);
    EveryMeasurementIsClassified(c.config.ranges, c.log.processed);
  }

  // ------------------------------------------------------------ draining

  function RunFrom(w: World, events: seq<Event>, hash: string -> string): World
    decreases |events|
  {
    if events == [] then w else RunFrom(Step(w, events[0], hash), events[1..], hash)
  }

  function Turns(events: seq<Event>): nat {
    if events == [] then 0 else (if events[0].WorkerTurn? then 1 else 0) + Turns(events[1..])
  }

  lemma {:induction false} WorkDrains(c: Capture, now: nat, fault: bool)
    requires !c.accepting && c.status != Active
    ensures var t := Work(c, now, fault);
            !t.accepting && t.status == c.status && |t.queue| == if c.queue == [] then 0 else |c.queue| - 1
  {
    if c.queue != [] { ProcessLeavesQueue(c.(queue := c.queue[1..]), c.queue[0], fault); }
  }

  lemma {:induction false} ProcessLeavesQueue(c: Capture, m: Measurement, fault: bool)
    ensures Process(c, m, fault).queue == c.queue && Process(c, m, fault).accepting == c.accepting
  {
    MatchLeavesQueue(CountReceived(c, m), m);
  }

  lemma {:induction false} MatchLeavesQueue(d: Capture, m: Measurement)
    ensures MatchPoint(d, m).queue == d.queue && MatchPoint(d, m).accepting == d.accepting
  {
  }

  lemma {:induction false} EndDrains(c: Capture, now: nat, hash: string -> string, fault: bool, reason: Reason)
    requires !c.accepting && c.status != Active
    ensures var t := EndLeave(c, now, hash, fault); !t.accepting && t.status != Active && t.queue == []
    ensures var t := Abort(c, reason, now, hash, fault);
            !t.accepting && t.status != Active && (t.queue == [] || t.queue == c.queue)
  {
  }

  lemma {:induction false} StepDrains(w: World, e: Event, hash: string -> string)
    requires !w.c.accepting && w.c.status != Active && !e.BeginCall?
    ensures var t := Step(w, e, hash).c;
            && !t.accepting && t.status != Active
            && |t.queue| <= |w.c.queue|
            && (e.WorkerTurn? && w.c.queue != [] ==> |t.queue| < |w.c.queue|)
  {
    match e
    case WorkerTurn(now, fault) => WorkDrains(w.c, now, fault);
    case EndReturn(now, fault) => EndDrains(w.c, now, hash, fault, HostShutdown);
    case AbortCall(reason, now, fault) => EndDrains(w.c, now, hash, fault, reason);
    case _ =>
  }

  /** Once a capture stops accepting, the worker empties the queue in as many turns as it holds. */
  lemma {:induction false} WorkerDrains(w: World, events: seq<Event>, hash: string -> string)
    requires !w.c.accepting && w.c.status != Active
    requires forall i :: 0 <= i < |events| ==> !events[i].BeginCall?
    ensures |RunFrom(w, events, hash).c.queue| <= if Turns(events) >= |w.c.queue| then 0 else |w.c.queue| - Turns(events)
    decreases |events|
  {
    if events != [] {
      StepDrains(w, events[0], hash);
      WorkerDrains(Step(w, events[0], hash), events[1..], hash);
    }
  }

  // ------------------------------------------------------------ event sequences

  predicate SameEvents(a: seq<Measurement>, b: seq<Measurement>) {
    |a| == |b| && forall i :: 0 <= i < |a| ==>
      a[i].kind == b[i].kind && a[i].index == b[i].index && a[i].value == b[i].value
  }

  lemma {:induction false} DecimalIsToken(n: nat)
    ensures NumberToken(Decimal(n))
    ensures forall i :: 0 <= i < |Decimal(n)| ==> '0' <= Decimal(n)[i] <= '9'
  {
    if n >= 10 { DecimalIsToken(n / 10); }
  }

  lemma {:induction false} DecimalUnique(m: nat, n: nat)
    requires Decimal(m) == Decimal(n)
    ensures m == n
  {
    DecimalLength(m);
    DecimalLength(n);
    if m >= 10 && n >= 10 {
      assert Decimal(m)[..|Decimal(m)| - 1] == Decimal(m / 10);
      assert Decimal(n)[..|Decimal(n)| - 1] == Decimal(n / 10);
      DecimalUnique(m / 10, n / 10);
      assert Decimal(m)[|Decimal(m)| - 1] == '0' + ((m % 10) as char);
      assert Decimal(n)[|Decimal(n)| - 1] == '0' + ((n % 10) as char);
    } else if m < 10 && n < 10 {
      assert Decimal(m)[0] == Decimal(n)[0];
    }
  }

  lemma {:induction false} DecimalLength(n: nat)
    ensures n < 10 <==> |Decimal(n)| == 1
    ensures |Decimal(n)| >= 1
  {
    if n >= 10 { DecimalIsToken(n / 10); }
  }

  lemma {:induction false} RecordUnique(a: Measurement, b: Measurement, x: string, y: string)
    requires WellFormed(a.value) && WellFormed(b.value) && Record(a) + x == Record(b) + y
    ensures a.kind == b.kind && a.index == b.index && a.value == b.value && x == y
  {
    if a.index.Some? { DecimalIsToken(a.index.value); }
    if b.index.Some? { DecimalIsToken(b.index.value); }
    var u, v := RecordJson(a), RecordJson(b);
    assert Record(a) + x == Print(u) + ("\n" + x) && Record(b) + y == Print(v) + ("\n" + y);
    PrintUnique(u, v, "\n" + x, "\n" + y);
    assert u.items[0] == v.items[0] && u.items[1] == v.items[1] && u.items[2] == v.items[2];
    if a.index.Some? && b.index.Some? { DecimalUnique(a.index.value, b.index.value); }
    CutHead("\n", "\n", x, y);
  }

  lemma {:induction false} RecordsCons(ms: seq<Measurement>)
    requires ms != []
    ensures Records(ms) == Record(ms[0]) + Records(ms[1..])
  {
    var n := |ms| - 1;
    if n == 0 {
      assert ms[..0] == [] && ms[1..] == [];
    } else {
      RecordsCons(ms[..n]);
      var mid := Records(ms[..n][1..]);
      assert ms[1..][..n - 1] == ms[..n][1..] && ms[1..][n - 1] == ms[n];
      assert Records(ms[1..]) == mid + Record(ms[n]);
      assert (Record(ms[0]) + mid) + Record(ms[n]) == Record(ms[0]) + (mid + Record(ms[n]));
    }
  }

  /** The concatenated records decode uniquely. */
  lemma {:induction false} RecordsUnique(a: seq<Measurement>, b: seq<Measurement>)
    requires Printable(a) && Printable(b) && Records(a) == Records(b)
    ensures SameEvents(a, b)
    decreases |a|
  {
    if a != [] { RecordsCons(a); }
    if b != [] { RecordsCons(b); }
    if a != [] && b != [] {
      RecordUnique(a[0], b[0], Records(a[1..]), Records(b[1..]));
      RecordsUnique(a[1..], b[1..]);
      assert forall i :: 0 < i < |a| ==> a[i] == a[1..][i - 1];
      assert forall i :: 0 < i < |b| ==> b[i] == b[1..][i - 1];
    }
  }

  /** The manifest describes a list of events: their number and the digest of their records. */
  ghost predicate Describes(m: Manifest, truth: seq<Measurement>, hash: string -> string) {
    m.eventTotal == |truth| && Lower(m.sha256) == hash(Records(truth))
  }

  ghost predicate Collision(hash: string -> string, x: string, y: string) {
    x != y && hash(x) == hash(y)
  }

  /**
   * The event verdict.  If a capture reports a match with a manifest that describes `truth`, it
   * processed exactly those events in that order, unless the digest function collides on the two
   * record texts.  If it is also valid, they are all that was offered.
   */
  lemma {:induction false} EventVerdict(events: seq<Event>, hash: string -> string, truth: seq<Measurement>)
    requires GoodEvents(events) && Printable(truth)
    requires var c := Run(events, hash).c;
             c.sequence.matched == Some(true) && c.config.manifest.Some?
             && Describes(c.config.manifest.value, truth, hash)
    ensures var c := Run(events, hash).c;
            && (SameEvents(c.log.processed, truth) || Collision(hash, Records(c.log.hashed), Records(truth)))
            && (Valid(c) ==> c.log.processed == Window(events, hash))
  {
    var c := Run(events, hash).c;
    RunKeeps(events, hash);
    LogIsWindow(events, hash);
    assert c.config.mode == EventSequence && c.sequence.sha.Some?;
    if Valid(c) { EndedCaptureProcessedAll(c, hash); }
    if Records(c.log.hashed) == Records(truth) {
      assert |c.log.processed| == |truth|;
      if c.log.faults == 0 {
        RecordsUnique(c.log.processed, truth);
      } else {
        RecordsUnique(c.log.hashed, truth);
      }
    }
  }

  // ------------------------------------------------------- ending twice

  lemma {:induction false} FinishingAgainChangesNothing(c: Capture, hash: string -> string, fault: bool)
    requires Hashed(c, hash) && (c.config.mode == EventSequence ==> c.sequence.matched.Some?)
    ensures FinalizeSequence(c, hash, fault) == c
  {
    if c.config.mode == EventSequence && c.sequence.sha.None? {
      assert c.sequence == Sequence(None, None, Some(false));
    }
  }

  lemma {:induction false} EndLeaveEnds(c: Capture, now: nat, hash: string -> string, fault: bool)
    requires Inv(c, hash) && c.status != Idle && c.status != Active && now > 0
    ensures var t := EndLeave(c, now, hash, fault);
            && (t.status == Finalized || t.status == TimedOut || t.status == Aborted)
            && t.queue == [] && (t.status != Finalized ==> t.times.ended != 0)
  {
    assert c.status.Finalizing? || c.status.Finalized? || c.status.TimedOut? || c.status.Aborted?;
  }

  lemma {:induction false} EndLeaveFinishesDigest(c: Capture, now: nat, hash: string -> string, fault: bool)
    requires Inv(c, hash) && c.status != Idle && c.status != Active
    ensures var t := EndLeave(c, now, hash, fault);
            t.config.mode == EventSequence ==> t.sequence.matched.Some?
  {
    EndLeaveMatches(c, now, hash, fault);
  }

  lemma {:induction false} EndLeaveMatches(c: Capture, now: nat, hash: string -> string, fault: bool)
    requires Closed(c) && c.status != Idle && c.status != Active
    requires c.config.mode == EventSequence && c.sequence.sha.Some? ==> c.sequence.matched.Some?
    ensures c.config.mode == EventSequence ==> EndLeave(c, now, hash, fault).sequence.matched.Some?
  {
    if c.queue != [] {
      FinalizeMatches(Discard(c, now, DrainTimeout), hash, fault);
    } else {
      FinalizeMatches(c, hash, fault);
      FinalizeMatches(EndedAt(c, now), hash, fault);
    }
  }

  lemma {:induction false} FinalizeMatches(c: Capture, hash: string -> string, fault: bool)
    requires c.config.mode == EventSequence && c.sequence.sha.Some? ==> c.sequence.matched.Some?
    ensures c.config.mode == EventSequence ==> FinalizeSequence(c, hash, fault).sequence.matched.Some?
  {
  }

  function EndedAt(c: Capture, now: nat): Capture {
    if c.times.ended == 0 then c.(times := c.times.(ended := now)) else c
  }

  /** Ending or aborting an ended capture again changes nothing. */
  lemma {:induction false} EndingAgainChangesNothing(c: Capture, hash: string -> string, fault: bool, now: nat, later: nat, fault': bool)
    requires Inv(c, hash) && c.status != Idle && c.status != Active && now > 0
    ensures var t := EndLeave(c, now, hash, fault);
            && EndLeave(t, later, hash, fault') == t
            && (forall reason :: t.status != TimedOut ==> Abort(t, reason, later, hash, fault') == t)
            && Work(t, later, fault') == t
            && (forall m :: Offer(t, m, later) == t)
  {
    var t := EndLeave(c, now, hash, fault);
    EndLeaveKeeps(c, now, hash, fault);
    EndLeaveEnds(c, now, hash, fault);
    EndLeaveFinishesDigest(c, now, hash, fault);
    FinishingAgainChangesNothing(t, hash, fault');
  }
}
