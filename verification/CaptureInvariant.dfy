// What every step of the capture keeps, and what every run therefore satisfies.

module CaptureInvariant {
  import opened Common
  import opened CaptureConfig
  import opened CaptureModel
  import opened JsonText

  function Capped(n: nat): nat {
    if n > MAX64 then MAX64 else n
  }

  // ------------------------------------------------- meaning of a point list

  function Strays(ranges: seq<PointRange>, ms: seq<Measurement>): nat {
    if ms == [] then 0
    else Strays(ranges, ms[..|ms| - 1]) + (if Covered(ranges, ms[|ms| - 1]) then 0 else 1)
  }

  function SeenIn(ranges: seq<PointRange>, ms: seq<Measurement>): set<Point> {
    if ms == [] then {}
    else SeenIn(ranges, ms[..|ms| - 1]) + (if Covered(ranges, ms[|ms| - 1]) then {PointOf(ms[|ms| - 1])} else {})
  }

  function Repeats(ranges: seq<PointRange>, ms: seq<Measurement>): nat {
    if ms == [] then 0
    else
      var last := ms[|ms| - 1];
      Repeats(ranges, ms[..|ms| - 1])
      + (if Covered(ranges, last) && PointOf(last) in SeenIn(ranges, ms[..|ms| - 1]) then 1 else 0)
  }

  lemma {:induction false} EveryMeasurementIsClassified(ranges: seq<PointRange>, ms: seq<Measurement>)
    ensures |SeenIn(ranges, ms)| + Repeats(ranges, ms) + Strays(ranges, ms) == |ms|
  {
    if ms != [] {
      var head, last := ms[..|ms| - 1], ms[|ms| - 1];
      EveryMeasurementIsClassified(ranges, head);
      if Covered(ranges, last) && PointOf(last) in SeenIn(ranges, head) {
        assert SeenIn(ranges, ms) == SeenIn(ranges, head);
      } else if Covered(ranges, last) {
        assert |SeenIn(ranges, head) + {PointOf(last)}| == |SeenIn(ranges, head)| + 1;
      }
    }
  }

  lemma {:induction false} Snoc(ranges: seq<PointRange>, ms: seq<Measurement>, m: Measurement)
    ensures var more := ms + [m];
            && SeenIn(ranges, more) == SeenIn(ranges, ms) + (if Covered(ranges, m) then {PointOf(m)} else {})
            && Repeats(ranges, more) == Repeats(ranges, ms)
                 + (if Covered(ranges, m) && PointOf(m) in SeenIn(ranges, ms) then 1 else 0)
            && Strays(ranges, more) == Strays(ranges, ms) + (if Covered(ranges, m) then 0 else 1)
  {
    assert (ms + [m])[..|ms|] == ms;
  }

  // ------------------------------------------------------------- invariants

  ghost predicate Lifecycle(c: Capture) {
    && (c.accepting <==> c.status == Active)
    && (c.status == Idle ==> c.queue == [])
    && (c.status != Idle ==> GoodConfig(c.config) && c.id.session > 0)
    && (c.status == Finalized || c.status == Aborted ==> c.queue == [])
    && (c.status == TimedOut ==> DeadlineExceeded in c.reasons)
    && (DeadlineExceeded in c.reasons ==> c.status == TimedOut || c.status == Aborted)
    && (c.status == Aborted <==> DrainTimeout in c.reasons || SessionDisconnected in c.reasons || HostShutdown in c.reasons)
  }

  /** Values the serialiser can write. */
  ghost predicate Printable(ms: seq<Measurement>) {
    forall i :: 0 <= i < |ms| ==> WellFormed(ms[i].value)
  }

  /** The bounds on what a snapshot lists, and on what a record prints. */
  ghost predicate Bounded(c: Capture) {
    && Distinct(c.reasons)
    && (forall i :: 0 <= i < |c.queue| ==> c.queue[i].kind != "")
    && Printable(c.queue) && Printable(c.log.processed) && Printable(c.log.hashed)
    && |c.detail.byKind| <= 256 && |c.detail.byVariation| <= 256 && "" !in c.detail.byKind
    && (c.status != Idle ==> |c.detail.samples| <= c.config.sampleLimit)
    && |c.queue| <= c.counts.maxDepth
    && (c.status != Idle ==> c.counts.maxDepth <= c.config.queueCapacity)
  }

  /** Conservation: every offered measurement is processed, queued, discarded or lost, in order. */
  ghost predicate Conserved(c: Capture) {
    && |c.log.offered| == |c.log.enqueued| + c.log.lost
    && c.log.enqueued == c.log.processed + c.queue + c.log.discarded
    && (c.log.discarded != [] ==> c.status == Aborted)
    && (c.log.lost == 0 ==> c.log.enqueued == c.log.offered)
    && (c.status == Idle ==> c.log == EMPTY_LOG)
  }

  /** The 64-bit counters count, as long as none of them stuck. */
  ghost predicate Counted(c: Capture) {
    && c.counts.offered == Capped(|c.log.offered|)
    && c.counts.received == Capped(|c.log.processed|)
    && c.counts.overflow == Capped(c.log.lost + c.log.faults)
    && c.counts.discarded == |c.log.discarded|
    && (c.log.lost > 0 <==> QueueOverflow in c.reasons)
    && (c.log.faults > 0 <==> ProcessingFailure in c.reasons)
    && (|c.log.offered| > MAX64 || c.log.lost + c.log.faults > MAX64 ==> CounterOverflow in c.reasons)
  }

  /** The list the point counters speak of: nothing unless the capture is a static set. */
  function Judged(c: Capture): seq<Measurement> {
    if c.config.mode == StaticSet then c.log.processed else []
  }

  ghost predicate Mismatched(c: Capture) {
    c.config.mode == StaticSet && (Missing(c.cover) != 0 || c.cover.duplicates != 0 || c.cover.unmatched != 0)
  }

  ghost predicate CoverTallies(c: Capture) {
    && c.cover.seen == SeenIn(c.config.ranges, Judged(c))
    && c.cover.unique == Capped(|c.cover.seen|)
    && c.cover.duplicates == Capped(Repeats(c.config.ranges, Judged(c)))
    && c.cover.unmatched == Capped(Strays(c.config.ranges, Judged(c)))
  }

  ghost predicate Tallied(c: Capture) {
    && (c.status != Idle ==> WellOrdered(c.config.ranges) && c.cover.expected == Total(c.config.ranges))
    && CoverTallies(c)
    && (StaticSetMismatch in c.reasons <==> c.status == Finalized && Mismatched(c))
  }

  /** The event digest follows the processed list until it is finished, once. */
  ghost predicate Hashed(c: Capture, hash: string -> string) {
    var s, log := c.sequence, c.log;
    && (c.config.mode != EventSequence ==>
          s == Sequence(None, None, None) && log.hashed == [] && log.faults == 0
          && SequenceMismatch !in c.reasons && DigestFailure !in c.reasons)
    && (c.config.mode == EventSequence ==>
          && |log.processed| == |log.hashed| + log.faults
          && (log.faults == 0 ==> log.hashed == log.processed)
          && (s.digest.Some? ==> s.digest.value == Records(log.hashed))
          && (s.digest.Some? <==> s.matched.None?)
          && (s.matched.None? ==> s.sha.None?)
          && (s.sha.Some? ==> s.sha.value == hash(Records(log.hashed)))
          && (s.sha.Some? ==> c.config.manifest.Some? && s.matched == Some(
                c.counts.received == c.config.manifest.value.eventTotal
                && s.sha.value == Lower(c.config.manifest.value.sha256)))
          && (s.matched.Some? && s.sha.None? ==> s.matched == Some(false))
          && (DigestFailure in c.reasons <==> s.matched.Some? && s.sha.None?)
          && (SequenceMismatch in c.reasons <==> s.sha.Some? && s.matched == Some(false)))
  }

  /** When the digest is open and when it is finished. */
  ghost predicate Closed(c: Capture) {
    && (c.status == Idle ==> c.config.mode == Observation)
    && (c.config.mode == EventSequence && c.sequence.matched.Some? ==> c.queue == [])
    && (c.config.mode == EventSequence && (c.status == Active || c.status == Finalizing) ==> c.sequence.matched.None?)
    && (c.config.mode == EventSequence && (c.status == Finalized || c.status == Aborted) ==> c.sequence.matched.Some?)
  }

  ghost predicate Inv(c: Capture, hash: string -> string) {
    Lifecycle(c) && Bounded(c) && Conserved(c) && Counted(c) && Tallied(c) && Hashed(c, hash) && Closed(c)
  }

  // ------------------------------------------------- preservation: producers

  lemma {:induction false} ExpireKeeps(c: Capture, now: nat, hash: string -> string)
    requires Inv(c, hash)
    ensures Inv(Expire(c, now), hash)
  {
    ExpireKeepsVerdict(c, now, hash);
  }

  lemma {:induction false} ExpireKeepsVerdict(c: Capture, now: nat, hash: string -> string)
    requires Lifecycle(c) && Tallied(c) && Hashed(c, hash)
    ensures Tallied(Expire(c, now)) && Hashed(Expire(c, now), hash)
  {
  }

  lemma {:induction false} ResetKeepsFlow(n: nat)
    ensures Lifecycle(Reset(n)) && Bounded(Reset(n)) && Conserved(Reset(n)) && Counted(Reset(n)) && Closed(Reset(n))
  {
  }

  lemma {:induction false} ResetKeepsVerdict(n: nat, hash: string -> string)
    ensures Tallied(Reset(n)) && Hashed(Reset(n), hash)
  {
  }

  lemma {:induction false} ResetKeeps(n: nat, hash: string -> string)
    ensures Inv(Reset(n), hash)
  {
    ResetKeepsFlow(n);
    ResetKeepsVerdict(n, hash);
  }

  lemma {:induction false} BeginKeeps(c: Capture, session: nat, config: Config, now: nat, ready: bool, hash: string -> string)
    requires Inv(c, hash) && session > 0 && GoodConfig(config)
    ensures Inv(Begin(c, session, config, now, ready), hash)
  {
    ExpireKeeps(c, now, hash);
    ResetKeeps(Expire(c, now).nextNumber + 1, hash);
  }

  lemma {:induction false} FragmentKeeps(c: Capture, source: Source, now: nat, hash: string -> string)
    requires Inv(c, hash)
    ensures Inv(Fragment(c, source, now), hash)
  {
    ExpireKeeps(c, now, hash);
  }

  lemma {:induction false} OfferKeepsFlow(e: Capture, m: Measurement, now: nat)
    requires Lifecycle(e) && Conserved(e) && Bounded(e) && Expire(e, now) == e && m.kind != "" && WellFormed(m.value)
    ensures Conserved(Offer(e, m, now)) && Bounded(Offer(e, m, now))
  {
    var t := Offer(e, m, now);
    if t != e && |e.queue| < e.config.queueCapacity {
      assert t.log.enqueued == t.log.processed + t.queue + t.log.discarded;
    }
  }

  lemma {:induction false} OfferKeepsLifecycle(e: Capture, m: Measurement, now: nat)
    requires Lifecycle(e) && Expire(e, now) == e
    ensures Lifecycle(Offer(e, m, now))
  {
  }

  lemma {:induction false} OfferKeepsCounts(e: Capture, m: Measurement, now: nat)
    requires Counted(e) && Expire(e, now) == e
    ensures Counted(Offer(e, m, now))
  {
  }

  lemma {:induction false} OfferKeepsTally(e: Capture, m: Measurement, now: nat)
    requires Tallied(e) && Expire(e, now) == e
    ensures Tallied(Offer(e, m, now))
  {
  }

  lemma {:induction false} OfferKeepsHash(e: Capture, m: Measurement, now: nat, hash: string -> string)
    requires Hashed(e, hash) && Expire(e, now) == e
    ensures Hashed(Offer(e, m, now), hash)
  {
  }

  lemma {:induction false} OfferKeepsVerdict(e: Capture, m: Measurement, now: nat, hash: string -> string)
    requires Tallied(e) && Hashed(e, hash) && Expire(e, now) == e
    ensures Tallied(Offer(e, m, now)) && Hashed(Offer(e, m, now), hash)
  {
    OfferKeepsTally(e, m, now);
    OfferKeepsHash(e, m, now, hash);
  }

  lemma {:induction false} OfferKeeps(c: Capture, m: Measurement, now: nat, hash: string -> string)
    requires Inv(c, hash) && m.kind != "" && WellFormed(m.value)
    ensures Inv(Offer(c, m, now), hash)
  {
    var e := Expire(c, now);
    ExpireKeeps(c, now, hash);
    OfferKeepsFlow(e, m, now);
    OfferKeepsLifecycle(e, m, now);
    OfferKeepsCounts(e, m, now);
    OfferKeepsVerdict(e, m, now, hash);
  }

  // ------------------------------------------------ preservation: the worker

  /** The worker takes the front measurement and counts it. */
  function Received(e: Capture): Capture
    requires e.queue != []
  {
    CountReceived(e.(queue := e.queue[1..]), e.queue[0])
  }

  lemma {:induction false} ReceivedKeepsBounds(e: Capture)
    requires Bounded(e) && e.queue != []
    ensures Bounded(Received(e))
  {
  }

  lemma {:induction false} ReceivedKeepsLifecycle(e: Capture)
    requires Lifecycle(e) && e.queue != []
    ensures Lifecycle(Received(e))
  {
  }

  lemma {:induction false} ReceivedConserves(e: Capture)
    requires Conserved(e) && e.queue != [] && e.status != Idle
    ensures Conserved(Received(e))
  {
    var t := Received(e);
    assert e.queue == [e.queue[0]] + e.queue[1..];
    assert t.log.enqueued == t.log.processed + t.queue + t.log.discarded;
  }

  lemma {:induction false} ReceivedKeepsFlow(e: Capture)
    requires Lifecycle(e) && Conserved(e) && e.queue != []
    ensures Lifecycle(Received(e)) && Conserved(Received(e))
  {
    ReceivedKeepsLifecycle(e);
    ReceivedConserves(e);
  }

  lemma {:induction false} ReceivedKeepsCounts(e: Capture)
    requires Conserved(e) && Counted(e) && e.queue != []
    ensures Counted(Received(e))
  {
  }

  lemma {:induction false} MatchKeepsFlow(d: Capture, m: Measurement)
    requires Lifecycle(d) && Conserved(d)
    ensures Lifecycle(MatchPoint(d, m)) && Conserved(MatchPoint(d, m))
  {
  }

  lemma {:induction false} MatchKeepsBounds(d: Capture, m: Measurement)
    requires Bounded(d) && d.status != Idle
    ensures Bounded(MatchPoint(d, m))
  {
  }

  lemma {:induction false} MatchKeepsCounts(d: Capture, m: Measurement)
    requires Counted(d)
    ensures Counted(MatchPoint(d, m))
  {
  }

  lemma {:induction false} HashKeepsFlow(d: Capture, m: Measurement, fault: bool)
    requires Lifecycle(d) && Bounded(d) && Conserved(d) && d.status != Idle && WellFormed(m.value)
    ensures Lifecycle(HashRecord(d, m, fault)) && Bounded(HashRecord(d, m, fault)) && Conserved(HashRecord(d, m, fault))
  {
  }

  lemma {:induction false} HashKeepsCounts(d: Capture, m: Measurement, fault: bool)
    requires Counted(d)
    ensures Counted(HashRecord(d, m, fault))
  {
  }

  /** The point counters after one more measurement, in terms of the list that grew by it. */
  lemma {:induction false} MatchTallies(e: Capture)
    requires Lifecycle(e) && Tallied(e) && e.queue != [] && e.config.mode == StaticSet
    ensures Tallied(MatchPoint(Received(e), e.queue[0]))
  {
    if !Covered(e.config.ranges, e.queue[0]) {
      StrayTallies(e);
    } else if PointOf(e.queue[0]) in e.cover.seen {
      RepeatTallies(e);
    } else {
      NewPointTallies(e);
    }
    MatchIsNoVerdict(Received(e), e.queue[0]);
  }

  lemma {:induction false} MatchIsNoVerdict(d: Capture, m: Measurement)
    requires StaticSetMismatch !in d.reasons
    ensures var t := MatchPoint(d, m);
            StaticSetMismatch !in t.reasons && t.cover.expected == d.cover.expected && t.config == d.config
  {
  }

  lemma {:induction false} StrayTallies(e: Capture)
    requires CoverTallies(e) && e.queue != [] && e.config.mode == StaticSet
    requires !Covered(e.config.ranges, e.queue[0])
    ensures CoverTallies(MatchPoint(Received(e), e.queue[0]))
  {
    Snoc(e.config.ranges, e.log.processed, e.queue[0]);
  }

  lemma {:induction false} RepeatTallies(e: Capture)
    requires CoverTallies(e) && e.queue != [] && e.config.mode == StaticSet
    requires Covered(e.config.ranges, e.queue[0]) && PointOf(e.queue[0]) in e.cover.seen
    ensures CoverTallies(MatchPoint(Received(e), e.queue[0]))
  {
    Snoc(e.config.ranges, e.log.processed, e.queue[0]);
    assert e.cover.seen + {PointOf(e.queue[0])} == e.cover.seen;
  }

  lemma {:induction false} NewPointTallies(e: Capture)
    requires CoverTallies(e) && e.queue != [] && e.config.mode == StaticSet
    requires Covered(e.config.ranges, e.queue[0]) && PointOf(e.queue[0]) !in e.cover.seen
    ensures CoverTallies(MatchPoint(Received(e), e.queue[0]))
  {
    Snoc(e.config.ranges, e.log.processed, e.queue[0]);
    assert |e.cover.seen + {PointOf(e.queue[0])}| == |e.cover.seen| + 1;
  }

  lemma {:induction false} OtherModesTally(e: Capture, fault: bool)
    requires Lifecycle(e) && Tallied(e) && e.queue != [] && e.config.mode != StaticSet
    ensures Tallied(Received(e)) && Tallied(HashRecord(Received(e), e.queue[0], fault))
  {
  }

  lemma {:induction false} HashFollows(e: Capture, fault: bool, hash: string -> string)
    requires Hashed(e, hash) && Closed(e) && e.queue != [] && e.config.mode == EventSequence
    ensures Hashed(HashRecord(Received(e), e.queue[0], fault), hash)
  {
    assert (e.log.hashed + [e.queue[0]])[..|e.log.hashed|] == e.log.hashed;
  }

  lemma {:induction false} OtherModesHash(e: Capture, hash: string -> string)
    requires Hashed(e, hash) && e.queue != [] && e.config.mode != EventSequence
    ensures Hashed(Received(e), hash)
  {
  }

  lemma {:induction false} MatchIgnoresHash(d: Capture, m: Measurement, hash: string -> string)
    requires Hashed(d, hash) && d.config.mode != EventSequence
    ensures Hashed(MatchPoint(d, m), hash)
  {
  }

  lemma {:induction false} WorkKeepsFlow(e: Capture, now: nat, fault: bool)
    requires Lifecycle(e) && Bounded(e) && Conserved(e) && Expire(e, now) == e && e.queue != [] && e.status != Idle
    ensures Lifecycle(Work(e, now, fault)) && Bounded(Work(e, now, fault)) && Conserved(Work(e, now, fault))
  {
    ReceivedKeepsBounds(e);
    ReceivedKeepsFlow(e);
    match e.config.mode
    case EventSequence => HashKeepsFlow(Received(e), e.queue[0], fault);
    case StaticSet =>
      MatchKeepsFlow(Received(e), e.queue[0]);
      MatchKeepsBounds(Received(e), e.queue[0]);
    case Observation =>
  }

  lemma {:induction false} WorkKeepsCounts(e: Capture, now: nat, fault: bool)
    requires Conserved(e) && Counted(e) && Expire(e, now) == e && e.queue != []
    ensures Counted(Work(e, now, fault))
  {
    ReceivedKeepsCounts(e);
    match e.config.mode
    case EventSequence => HashKeepsCounts(Received(e), e.queue[0], fault);
    case StaticSet => MatchKeepsCounts(Received(e), e.queue[0]);
    case Observation =>
  }

  lemma {:induction false} WorkKeepsTally(e: Capture, now: nat, fault: bool)
    requires Lifecycle(e) && Tallied(e) && Expire(e, now) == e && e.queue != []
    ensures Tallied(Work(e, now, fault))
  {
    if e.config.mode == StaticSet { MatchTallies(e); } else { OtherModesTally(e, fault); }
  }

  lemma {:induction false} WorkKeepsHash(e: Capture, now: nat, fault: bool, hash: string -> string)
    requires Hashed(e, hash) && Closed(e) && Expire(e, now) == e && e.queue != []
    ensures Hashed(Work(e, now, fault), hash) && Closed(Work(e, now, fault))
  {
    if e.config.mode == EventSequence {
      HashFollows(e, fault, hash);
    } else {
      OtherModesHash(e, hash);
      MatchIgnoresHash(Received(e), e.queue[0], hash);
    }
  }

  lemma {:induction false} WorkKeeps(c: Capture, now: nat, fault: bool, hash: string -> string)
    requires Inv(c, hash)
    ensures Inv(Work(c, now, fault), hash)
  {
    var e := Expire(c, now);
    ExpireKeeps(c, now, hash);
    if e.queue != [] {
      assert Work(e, now, fault) == Work(c, now, fault);
      WorkKeepsFlow(e, now, fault);
      WorkKeepsCounts(e, now, fault);
      WorkKeepsTally(e, now, fault);
      WorkKeepsHash(e, now, fault, hash);
    }
  }

  // ------------------------------------------------- preservation: the end

  /** Everything but the rule that an ended capture has finished its digest. */
  ghost predicate Ending(c: Capture, hash: string -> string) {
    && Lifecycle(c) && Bounded(c) && Conserved(c) && Counted(c) && Tallied(c) && Hashed(c, hash)
    && c.queue == [] && c.status != Idle && c.status != Active
  }

  lemma {:induction false} FinalizeKeepsFlow(c: Capture, hash: string -> string, fault: bool)
    requires Lifecycle(c) && Conserved(c)
    ensures Lifecycle(FinalizeSequence(c, hash, fault)) && Conserved(FinalizeSequence(c, hash, fault))
  {
  }

  lemma {:induction false} FinalizeKeepsBounds(c: Capture, hash: string -> string, fault: bool)
    requires Bounded(c) && c.status != Idle
    ensures Bounded(FinalizeSequence(c, hash, fault))
  {
  }

  lemma {:induction false} FinalizeKeepsCounts(c: Capture, hash: string -> string, fault: bool)
    requires Counted(c)
    ensures Counted(FinalizeSequence(c, hash, fault))
  {
  }

  lemma {:induction false} FinalizeKeepsTally(c: Capture, hash: string -> string, fault: bool)
    requires Tallied(c)
    ensures Tallied(FinalizeSequence(c, hash, fault))
  {
  }

  lemma {:induction false} FinalizeHashes(c: Capture, hash: string -> string, fault: bool)
    requires Hashed(c, hash)
    ensures Hashed(FinalizeSequence(c, hash, fault), hash)
    ensures c.config.mode == EventSequence ==> FinalizeSequence(c, hash, fault).sequence.matched.Some?
  {
  }

  lemma {:induction false} FinalizeEnds(c: Capture, hash: string -> string, fault: bool)
    requires Ending(c, hash)
    ensures Ending(FinalizeSequence(c, hash, fault), hash)
    ensures c.status != Finalizing ==> Inv(FinalizeSequence(c, hash, fault), hash)
  {
    FinalizeKeepsFlow(c, hash, fault);
    FinalizeKeepsBounds(c, hash, fault);
    FinalizeKeepsCounts(c, hash, fault);
    FinalizeKeepsTally(c, hash, fault);
    FinalizeHashes(c, hash, fault);
  }

  lemma {:induction false} DiscardEnds(c: Capture, now: nat, reason: Reason, hash: string -> string)
    requires Inv(c, hash) && (c.status == Active || c.status == Finalizing || c.status == TimedOut)
    requires reason == DrainTimeout || reason == SessionDisconnected || reason == HostShutdown
    ensures Ending(Discard(c, now, reason), hash)
  {
    DiscardKeepsFlow(c, now, reason);
    DiscardKeepsVerdict(c, now, reason, hash);
  }

  lemma {:induction false} DiscardKeepsFlow(c: Capture, now: nat, reason: Reason)
    requires Lifecycle(c) && Conserved(c) && Counted(c) && c.status != Aborted && c.status != Idle
    requires reason == DrainTimeout || reason == SessionDisconnected || reason == HostShutdown
    ensures Lifecycle(Discard(c, now, reason)) && Conserved(Discard(c, now, reason)) && Counted(Discard(c, now, reason))
  {
    var d := Discard(c, now, reason);
    assert c.log.discarded == [];
    assert d.log.enqueued == d.log.processed + d.queue + d.log.discarded;
  }

  lemma {:induction false} DiscardKeepsVerdict(c: Capture, now: nat, reason: Reason, hash: string -> string)
    requires Tallied(c) && Hashed(c, hash) && c.status != Finalized && c.status != Idle
    requires reason == DrainTimeout || reason == SessionDisconnected || reason == HostShutdown
    ensures Tallied(Discard(c, now, reason)) && Hashed(Discard(c, now, reason), hash)
  {
  }

  lemma {:induction false} StaticVerdictEnds(f: Capture, now: nat, hash: string -> string)
    requires Ending(f, hash) && f.status == Finalizing
    requires f.config.mode == EventSequence ==> f.sequence.matched.Some?
    ensures Inv(FinalizeStatic(f).(status := Finalized, times := f.times.(ended := now)), hash)
  {
    var t := FinalizeStatic(f).(status := Finalized, times := f.times.(ended := now));
    assert Lifecycle(t) && Bounded(t) && Conserved(t);
    assert Counted(t);
    assert Tallied(t);
  }

  lemma {:induction false} DrainTimeoutKeeps(c: Capture, now: nat, hash: string -> string, fault: bool)
    requires Inv(c, hash) && c.queue != [] && (c.status == Finalizing || c.status == TimedOut)
    ensures Inv(EndLeave(c, now, hash, fault), hash)
  {
    DiscardEnds(c, now, DrainTimeout, hash);
    FinalizeEnds(Discard(c, now, DrainTimeout), hash, fault);
  }

  lemma {:induction false} FinalizeKeeps(c: Capture, now: nat, hash: string -> string, fault: bool)
    requires Inv(c, hash) && c.queue == [] && c.status == Finalizing
    ensures Inv(EndLeave(c, now, hash, fault), hash)
  {
    FinalizeEnds(c, hash, fault);
    FinalizeHashes(c, hash, fault);
    StaticVerdictEnds(FinalizeSequence(c, hash, fault), now, hash);
  }

  lemma {:induction false} EndedKeeps(c: Capture, now: nat, hash: string -> string, fault: bool)
    requires Inv(c, hash) && c.queue == [] && (c.status == TimedOut || c.status == Aborted)
    ensures Inv(EndLeave(c, now, hash, fault), hash)
  {
    var t := if c.times.ended == 0 then c.(times := c.times.(ended := now)) else c;
    assert Ending(t, hash);
    FinalizeEnds(t, hash, fault);
  }

  lemma {:induction false} EndLeaveKeeps(c: Capture, now: nat, hash: string -> string, fault: bool)
    requires Inv(c, hash) && c.status != Idle && c.status != Active
    ensures Inv(EndLeave(c, now, hash, fault), hash)
  {
    if c.queue != [] {
      DrainTimeoutKeeps(c, now, hash, fault);
    } else if c.status == Finalizing {
      FinalizeKeeps(c, now, hash, fault);
    } else if c.status != Finalized {
      EndedKeeps(c, now, hash, fault);
    }
  }

  lemma {:induction false} EndEnterKeeps(c: Capture, id: CaptureId, now: nat, hash: string -> string)
    requires Inv(c, hash)
    ensures Inv(EndEnter(c, id, now), hash)
  {
    ExpireKeeps(c, now, hash);
  }

  lemma {:induction false} AbortKeeps(c: Capture, reason: Reason, now: nat, hash: string -> string, fault: bool)
    requires Inv(c, hash) && (reason == SessionDisconnected || reason == HostShutdown)
    ensures Inv(Abort(c, reason, now, hash, fault), hash)
  {
    if c.status == Active || c.status == Finalizing || c.status == TimedOut {
      DiscardEnds(c, now, reason, hash);
      FinalizeEnds(Discard(c, now, reason), hash, fault);
    }
  }

  /** Where the RPC thread is constrains where the capture can be. */
  ghost predicate Placed(w: World) {
    && (w.c.status == Finalizing ==> w.waiting)
    && (w.waiting ==> w.c.status != Idle && w.c.status != Active)
  }

  lemma {:induction false} StepKeepsPlace(w: World, e: Event, hash: string -> string)
    requires Placed(w)
    ensures Placed(Step(w, e, hash))
  {
  }

  lemma {:induction false} CallKeeps(w: World, e: Event, hash: string -> string)
    requires Inv(w.c, hash) && Placed(w) && GoodEvent(e)
    requires e.BeginCall? || e.ProgressCall? || e.EndCall? || e.AbortCall?
    ensures Inv(Step(w, e, hash).c, hash)
  {
    match e
    case BeginCall(session, config, now, ready) => BeginKeeps(w.c, session, config, now, ready, hash);
    case ProgressCall(id, now) => ExpireKeeps(w.c, now, hash);
    case EndCall(id, now) => EndEnterKeeps(w.c, id, now, hash);
    case AbortCall(reason, now, fault) => AbortKeeps(w.c, reason, now, hash, fault);
  }

  lemma {:induction false} BackgroundKeeps(w: World, e: Event, hash: string -> string)
    requires Inv(w.c, hash) && Placed(w) && GoodEvent(e)
    requires e.EndReturn? || e.FragmentSeen? || e.ObjectSeen? || e.WorkerTurn?
    ensures Inv(Step(w, e, hash).c, hash)
  {
    match e
    case EndReturn(now, fault) => if w.waiting { EndLeaveKeeps(w.c, now, hash, fault); }
    case FragmentSeen(source, now) => FragmentKeeps(w.c, source, now, hash);
    case ObjectSeen(m, now) => OfferKeeps(w.c, m, now, hash);
    case WorkerTurn(now, fault) => WorkKeeps(w.c, now, fault, hash);
  }

  lemma {:induction false} StepKeeps(w: World, e: Event, hash: string -> string)
    requires Inv(w.c, hash) && Placed(w) && GoodEvent(e)
    ensures Inv(Step(w, e, hash).c, hash) && Placed(Step(w, e, hash))
  {
    StepKeepsPlace(w, e, hash);
    if e.BeginCall? || e.ProgressCall? || e.EndCall? || e.AbortCall? {
      CallKeeps(w, e, hash);
    } else {
      BackgroundKeeps(w, e, hash);
    }
  }

  /** Every reachable capture, under any interleaving of producers, worker and RPC calls. */
  lemma {:induction false} RunKeeps(events: seq<Event>, hash: string -> string)
    requires GoodEvents(events)
    ensures Inv(Run(events, hash).c, hash) && Placed(Run(events, hash))
  {
    if events == [] {
      ResetKeeps(0, hash);
    } else {
      var head := events[..|events| - 1];
      assert GoodEvents(head);
      RunKeeps(head, hash);
      StepKeeps(Run(head, hash), events[|events| - 1], hash);
    }
  }
}
