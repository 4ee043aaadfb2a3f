// The capture object itself: its fields, updated in place by the RPC calls, the producers and
// the worker.  Every method performs exactly the step of the state machine it names.

module MeasurementCapture {
  import opened Common
  import opened CaptureBitmap
  import opened CaptureConfig
  import opened CaptureModel
  import opened CaptureResult
  import opened CaptureVerdict

  datatype Answer = Answered(reply: Reply) | AlreadyExecuting | UnknownCapture | AllocationFailed

  datatype Tally = Tally(expected: nat, unique: nat, duplicates: nat, unmatched: nat)

  predicate DuringWait(e: Event) {
    e.FragmentSeen? || e.ObjectSeen? || e.WorkerTurn?
  }

  /** A step of a producer or of the worker. */
  function ThreadStep(c: Capture, e: Event): Capture
    requires DuringWait(e)
  {
    match e
    case FragmentSeen(source, now) => Fragment(c, source, now)
    case ObjectSeen(m, now) => Offer(c, m, now)
    case WorkerTurn(now, fault) => Work(c, now, fault)
  }

  lemma {:induction false} ThreadStepIsStep(c: Capture, e: Event, hash: string -> string)
    requires DuringWait(e)
    ensures World(ThreadStep(c, e), true) == Step(World(c, true), e, hash)
  {
  }

  /** The bitmaps stand for the set of points seen. */
  ghost predicate Marks(ranges: seq<PointRange>, bits: seq<Words>, seen: set<Point>) {
    Shaped(ranges, bits) && Disjoint(ranges) && seen == SeenBits(ranges, bits)
  }

  lemma {:induction false} NothingSeen()
    ensures Marks([], [], {})
  {
  }

  ghost function Admitted(e: Capture, m: Measurement): Capture {
    var counts := e.counts.(offered := Next(e.counts.offered));
    var reasons := Noted(e.reasons, Stuck(e.counts.offered));
    var log := e.log.(offered := e.log.offered + [m]);
    if |e.queue| >= e.config.queueCapacity then
      e.(counts := counts.(overflow := Next(counts.overflow)),
         reasons := With(Noted(reasons, Stuck(counts.overflow)), QueueOverflow), log := log.(lost := log.lost + 1))
    else
      e.(queue := e.queue + [m], reasons := reasons, log := log.(enqueued := log.enqueued + [m]),
         counts := counts.(maxDepth := if counts.maxDepth > |e.queue| then counts.maxDepth else |e.queue| + 1))
  }

  class Recorder {
    var status: Status
    var accepting: bool
    var processing: bool
    var config: Config
    var captureId: CaptureId
    var nextNumber: nat
    var times: Times
    var queue: seq<Measurement>
    var bits: seq<Words>
    var tally: Tally
    var counts: Counts
    var detail: Detail
    var sequence: Sequence
    var invalidReasons: seq<Reason>
    ghost var seen: set<Point>
    ghost var log: Log

    ghost predicate Shape()
      reads `config, `bits, `seen
    {
      Marks(config.ranges, bits, seen)
    }

    ghost predicate Valid()
      reads `config, `bits, `seen, `processing
    {
      Shape() && !processing
    }

    /** The fields a snapshot is made of. */
    function View(): Capture
      reads this
    {
      Capture(status, accepting, config, captureId, nextNumber, times, queue, counts,
              Cover(tally.expected, {}, tally.unique, tally.duplicates, tally.unmatched),
              sequence, detail, invalidReasons, EMPTY_LOG)
    }

    /** The state the object stands for. */
    ghost function Abs(): Capture
      reads this
    {
      Capture(status, accepting, config, captureId, nextNumber, times, queue, counts,
              Cover(tally.expected, seen, tally.unique, tally.duplicates, tally.unmatched),
              sequence, detail, invalidReasons, log)
    }

    constructor ()
      ensures Valid()
      ensures Abs() == Reset(0)
    {
      status, accepting, processing, config, captureId, nextNumber :=
        Idle, false, false, NO_CONFIG, CaptureId(0, 0), 0;
      times, queue, bits, tally, counts := Times(0, 0, 0), [], [], Tally(0, 0, 0, 0), Counts(0, 0, 0, 0, 0, 0);
      detail, sequence, invalidReasons := Detail([], map[], map[]), Sequence(None, None, None), [];
      seen, log := {}, EMPTY_LOG;
      new;
      NothingSeen();
    }

    method ClearProgress()
      modifies `times, `queue, `tally, `counts, `detail, `sequence, `invalidReasons, `log
      ensures times == Times(0, 0, 0) && queue == [] && tally == Tally(0, 0, 0, 0)
      ensures counts == Counts(0, 0, 0, 0, 0, 0) && detail == Detail([], map[], map[])
      ensures sequence == Sequence(None, None, None) && invalidReasons == [] && log == EMPTY_LOG
    {
      times, queue, tally, counts := Times(0, 0, 0), [], Tally(0, 0, 0, 0), Counts(0, 0, 0, 0, 0, 0);
      detail, sequence, invalidReasons, log := Detail([], map[], map[]), Sequence(None, None, None), [], EMPTY_LOG;
    }

    method ResetLocked()
      modifies this
      ensures Valid()
      ensures Abs() == Reset(old(nextNumber))
    {
      ClearProgress();
      status, accepting, processing, captureId := Idle, false, false, CaptureId(0, 0);
      config, bits, seen := NO_CONFIG, [], {};
      NothingSeen();
    }

    // ------------------------------------------------------------ small pieces

    method AddInvalidReason(reason: Reason)
      modifies `invalidReasons
      ensures invalidReasons == With(old(invalidReasons), reason)
    {
      if reason !in invalidReasons {
        invalidReasons := invalidReasons + [reason];
      }
    }

    method Increment(value: nat) returns (next: nat)
      modifies `invalidReasons
      ensures next == Next(value) && invalidReasons == Noted(old(invalidReasons), Stuck(value))
    {
      if value >= MAX64 {
        AddInvalidReason(CounterOverflow);
        return value;
      }
      next := value + 1;
    }

    method IncrementDimension<K(==)>(dimension: map<K, nat>, key: K) returns (next: map<K, nat>)
      modifies `invalidReasons
      ensures next == BumpKey(dimension, key)
      ensures invalidReasons == Noted(old(invalidReasons), KeyTrouble(dimension, key))
    {
      next := dimension;
      if key !in next {
        if |next| >= 256 {
          AddInvalidReason(DimensionLimit);
          return;
        }
        next := next[key := 0];
      }
      var count := Increment(next[key]);
      next := next[key := count];
    }

    method Close(last: Status, at: nat, reason: Reason)
      modifies `status, `accepting, `times, `invalidReasons
      ensures status == last && !accepting && times == old(times).(ended := at)
      ensures invalidReasons == With(old(invalidReasons), reason)
    {
      accepting := false;
      status := last;
      times := times.(ended := at);
      AddInvalidReason(reason);
    }

    method ExpireLocked(now: nat)
      requires Valid()
      modifies `status, `accepting, `times, `invalidReasons
      ensures Valid()
      ensures Abs() == Expire(old(Abs()), now)
    {
      if status == Active && now >= times.deadline {
        Close(TimedOut, times.deadline, DeadlineExceeded);
      }
    }

    // ---------------------------------------------------------------- producers

    method RecordFragment(source: Source, now: nat)
      requires Valid()
      modifies `status, `accepting, `times, `invalidReasons, `counts
      ensures Valid()
      ensures Abs() == Fragment(old(Abs()), source, now)
    {
      ExpireLocked(now);
      if !accepting || source !in config.sources {
        return;
      }
      var fragments := Increment(counts.fragments);
      counts := counts.(fragments := fragments);
    }

    method CountOffered(m: Measurement)
      modifies `counts, `invalidReasons, `log
      ensures counts == old(counts).(offered := Next(old(counts).offered))
      ensures invalidReasons == Noted(old(invalidReasons), Stuck(old(counts).offered))
      ensures log == old(log).(offered := old(log).offered + [m])
    {
      var offered := Increment(counts.offered);
      counts := counts.(offered := offered);
      log := log.(offered := log.offered + [m]);
    }

    method CountOverflow()
      modifies `counts, `invalidReasons
      ensures counts == old(counts).(overflow := Next(old(counts).overflow))
      ensures invalidReasons == Noted(old(invalidReasons), Stuck(old(counts).overflow))
    {
      var overflow := Increment(counts.overflow);
      counts := counts.(overflow := overflow);
    }

    method Refuse()
      modifies `counts, `invalidReasons, `log
      ensures counts == old(counts).(overflow := Next(old(counts).overflow))
      ensures invalidReasons == With(Noted(old(invalidReasons), Stuck(old(counts).overflow)), QueueOverflow)
      ensures log == old(log).(lost := old(log).lost + 1)
    {
      CountOverflow();
      AddInvalidReason(QueueOverflow);
      log := log.(lost := log.lost + 1);
    }

    method Enqueue(m: Measurement)
      modifies `queue, `counts, `log
      ensures queue == old(queue) + [m] && log == old(log).(enqueued := old(log).enqueued + [m])
      ensures counts == old(counts).(maxDepth :=
        if old(counts).maxDepth > |old(queue)| then old(counts).maxDepth else |old(queue)| + 1)
    {
      queue := queue + [m];
      log := log.(enqueued := log.enqueued + [m]);
      counts := counts.(maxDepth := if counts.maxDepth > |queue| then counts.maxDepth else |queue|);
    }

    method RecordObject(m: Measurement, now: nat)
      requires Valid()
      modifies `status, `accepting, `times, `invalidReasons, `counts, `queue, `log
      ensures Valid()
      ensures Abs() == Offer(old(Abs()), m, now)
    {
      ExpireLocked(now);
      if !accepting || m.source !in config.sources {
        return;
      }
      Admit(m);
    }

    /** An accepted measurement is queued, or counted as lost. */
    method Admit(m: Measurement)
      modifies `counts, `invalidReasons, `queue, `log
      ensures Abs() == Admitted(old(Abs()), m)
    {
      CountOffered(m);
      if |queue| >= config.queueCapacity {
        Refuse();
      } else {
        Enqueue(m);
      }
    }

    // ------------------------------------------------------------------- worker

    method RecordUnmatched(m: Measurement)
      requires Shape() && !Covered(config.ranges, m)
      modifies `tally, `detail, `invalidReasons
      ensures Shape()
      ensures Abs() == MatchPoint(old(Abs()), m)
    {
      var unmatched := Increment(tally.unmatched);
      tally := tally.(unmatched := unmatched);
      if |detail.samples| >= config.sampleLimit {
        return;
      }
      detail := detail.(samples := detail.samples + [UnexpectedPoint(m)]);
    }

    method SetBit(r: nat, kind: string, index: nat)
      requires Shape() && r < |config.ranges| && InRange(config.ranges[r], kind, index)
      modifies `bits, `seen
      ensures Shape() && seen == old(seen) + {(kind, index)}
    {
      var offset := index - config.ranges[r].start;
      InWords(config.ranges, bits, r, index);
      SettingAddsPoint(config.ranges, bits, r, kind, index);
      bits := bits[r := bits[r][offset / 64 := bits[r][offset / 64] | Mask(offset % 64)]];
      seen := seen + {(kind, index)};
    }

    method TestBit(r: nat, kind: string, index: nat) returns (marked: bool)
      requires Shape() && r < |config.ranges| && InRange(config.ranges[r], kind, index)
      ensures marked <==> (kind, index) in seen
    {
      var offset := index - config.ranges[r].start;
      InWords(config.ranges, bits, r, index);
      BitTells(config.ranges, bits, r, kind, index);
      marked := bits[r][offset / 64] & Mask(offset % 64) != 0;
    }

    method CountUnique()
      modifies `tally, `invalidReasons
      ensures tally == old(tally).(unique := Next(old(tally).unique))
      ensures invalidReasons == Noted(old(invalidReasons), Stuck(old(tally).unique))
    {
      var unique := Increment(tally.unique);
      tally := tally.(unique := unique);
    }

    method CountDuplicate()
      modifies `tally, `invalidReasons
      ensures tally == old(tally).(duplicates := Next(old(tally).duplicates))
      ensures invalidReasons == Noted(old(invalidReasons), Stuck(old(tally).duplicates))
    {
      var duplicates := Increment(tally.duplicates);
      tally := tally.(duplicates := duplicates);
    }

    method MarkPoint(r: nat, m: Measurement)
      requires Shape() && m.index.Some? && r < |config.ranges| && InRange(config.ranges[r], m.kind, m.index.value)
      modifies `bits, `seen, `tally, `invalidReasons
      ensures Shape()
      ensures Abs() == MatchPoint(old(Abs()), m)
    {
      var marked := TestBit(r, m.kind, m.index.value);
      if marked {
        CountDuplicate();
      } else {
        SetBit(r, m.kind, m.index.value);
        CountUnique();
      }
    }

    method MatchLocked(m: Measurement)
      requires Shape()
      modifies `bits, `seen, `tally, `detail, `invalidReasons
      ensures Shape()
      ensures Abs() == MatchPoint(old(Abs()), m)
    {
      if m.index.None? {
        RecordUnmatched(m);
        return;
      }
      var r := 0;
      while r < |config.ranges|
        invariant unchanged(this)
        invariant r <= |config.ranges|
        invariant forall q :: 0 <= q < r ==> !InRange(config.ranges[q], m.kind, m.index.value)
      {
        if InRange(config.ranges[r], m.kind, m.index.value) {
          MarkPoint(r, m);
          return;
        }
        r := r + 1;
      }
      RecordUnmatched(m);
    }

    method CountDimensions(m: Measurement)
      modifies `detail, `invalidReasons
      ensures detail == old(detail).(byKind := BumpKey(old(detail).byKind, m.kind),
                                     byVariation := BumpKey(old(detail).byVariation, (m.group, m.variation)))
      ensures invalidReasons == Noted(Noted(old(invalidReasons), KeyTrouble(old(detail).byKind, m.kind)),
                                      KeyTrouble(old(detail).byVariation, (m.group, m.variation)))
    {
      var kinds := IncrementDimension(detail.byKind, m.kind);
      var variations := IncrementDimension(detail.byVariation, (m.group, m.variation));
      detail := detail.(byKind := kinds, byVariation := variations);
    }

    method CountProcessed(m: Measurement)
      modifies `counts, `invalidReasons, `log
      ensures counts == old(counts).(received := Next(old(counts).received))
      ensures invalidReasons == Noted(old(invalidReasons), Stuck(old(counts).received))
      ensures log == old(log).(processed := old(log).processed + [m])
    {
      var received := Increment(counts.received);
      counts := counts.(received := received);
      log := log.(processed := log.processed + [m]);
    }

    method CountLocked(m: Measurement)
      requires Shape()
      modifies `counts, `detail, `invalidReasons, `log
      ensures Shape()
      ensures Abs() == CountReceived(old(Abs()), m)
    {
      CountProcessed(m);
      CountDimensions(m);
      ghost var d := CountReceived(old(Abs()), m);
      assert counts == d.counts && log == d.log && detail == d.detail && invalidReasons == d.reasons;
    }

    /** `thrown`: the digest is missing or its provider failed (`fault`). */
    method ProcessLocked(m: Measurement, fault: bool) returns (thrown: bool)
      requires Shape()
      modifies `counts, `log, `sequence, `bits, `seen, `tally, `detail, `invalidReasons
      ensures Shape()
      ensures thrown <==> old(config).mode == EventSequence && (fault || old(sequence).digest.None?)
      ensures Abs() == if thrown then CountReceived(old(Abs()), m) else Process(old(Abs()), m, fault)
    {
      CountLocked(m);
      if config.mode == EventSequence {
        if fault || sequence.digest.None? {
          return true;
        }
        sequence := sequence.(digest := Some(sequence.digest.value + Record(m)));
        log := log.(hashed := log.hashed + [m]);
        return false;
      }
      if config.mode != StaticSet {
        return false;
      }
      MatchLocked(m);
      return false;
    }

    /** The handler around `process_locked` in the worker's loop. */
    method ProcessSafely(m: Measurement, fault: bool)
      requires Shape()
      modifies `counts, `log, `sequence, `bits, `seen, `tally, `detail, `invalidReasons
      ensures Shape()
      ensures Abs() == Process(old(Abs()), m, fault)
    {
      var thrown := ProcessLocked(m, fault);
      if thrown {
        HandleFailure(m, fault);
      }
    }

    method HandleFailure(m: Measurement, fault: bool)
      requires fault || sequence.digest.None?
      modifies `counts, `log, `invalidReasons
      ensures Abs() == HashRecord(old(Abs()), m, fault)
    {
      CountFault();
    }

    method CountFault()
      modifies `counts, `log, `invalidReasons
      ensures counts == old(counts).(overflow := Next(old(counts).overflow))
      ensures invalidReasons == Noted(With(old(invalidReasons), ProcessingFailure), Stuck(old(counts).overflow))
      ensures log == old(log).(faults := old(log).faults + 1)
    {
      AddInvalidReason(ProcessingFailure);
      CountOverflow();
      log := log.(faults := log.faults + 1);
    }

    method WorkerTurn(now: nat, fault: bool)
      requires Valid()
      modifies this
      ensures Valid()
      ensures Abs() == Work(old(Abs()), now, fault)
    {
      ExpireLocked(now);
      if queue == [] {
        return;
      }
      var m := queue[0];
      queue := queue[1..];
      processing := true;
      ProcessSafely(m, fault);
      processing := false;
    }

    // ---------------------------------------------------------------- RPC calls

    method AllocateRanges(ranges: seq<PointRange>) returns (words: seq<Words>, total: nat)
      requires WellOrdered(ranges)
      ensures Shaped(ranges, words) && SeenBits(ranges, words) == {} && total == Total(ranges)
    {
      words, total := [], 0;
      for i := 0 to |ranges|
        invariant |words| == i
        invariant forall r :: 0 <= r < i ==> |words[r]| == WordCount(ranges[r])
        invariant forall r, w :: 0 <= r < i && 0 <= w < |words[r]| ==> words[r][w] == 0
        invariant total == Total(ranges[..i])
      {
        var zeros: Words := seq(WordCount(ranges[i]), _ => 0);
        words := words + [zeros];
        assert ranges[..i + 1][..i] == ranges[..i];
        total := total + Size(ranges[i]);
      }
      assert ranges[..|ranges|] == ranges;
      ZeroWordsAreEmpty(ranges, words);
    }

    method Install(requested: Config)
      requires WellOrdered(requested.ranges) && Disjoint(requested.ranges)
      modifies `config, `bits, `seen, `tally
      ensures Shape()
      ensures config == requested && seen == {} && tally == Tally(Total(requested.ranges), 0, 0, 0)
    {
      var words, total := AllocateRanges(requested.ranges);
      config, bits, seen, tally := requested, words, {}, Tally(total, 0, 0, 0);
    }

    method Arm(id: CaptureId, now: nat, deadline: nat)
      modifies `captureId, `times, `status, `accepting
      ensures captureId == id && times == Times(now, deadline, 0) && status == Active && accepting
    {
      captureId := id;
      times := Times(now, deadline, 0);
      status := Active;
      accepting := true;
    }

    method OpenDigest()
      modifies `sequence
      ensures sequence == if config.mode == EventSequence then old(sequence).(digest := Some("")) else old(sequence)
    {
      if config.mode == EventSequence {
        sequence := sequence.(digest := Some(""));
      }
    }

    method Start(session: nat, requested: Config, now: nat)
      requires Abs() == Reset(nextNumber) && WellOrdered(requested.ranges) && Disjoint(requested.ranges)
      modifies `config, `bits, `seen, `tally, `captureId, `times, `sequence, `status, `accepting
      ensures Shape()
      ensures Abs() == Reset(nextNumber).(
        status := Active, accepting := true, config := requested, id := CaptureId(session, nextNumber),
        times := Times(now, now + requested.durationMs * 1_000_000, 0),
        cover := Cover(Total(requested.ranges), {}, 0, 0, 0),
        sequence := Sequence(if requested.mode == EventSequence then Some("") else None, None, None))
    {
      Install(requested);
      Arm(CaptureId(session, nextNumber), now, now + config.durationMs * 1_000_000);
      OpenDigest();
    }

    method Renumber()
      modifies this
      ensures Valid()
      ensures Abs() == Reset(old(nextNumber) + 1)
    {
      ResetLocked();
      nextNumber := nextNumber + 1;
    }

    method Begin(session: nat, requested: Config, now: nat, digestReady: bool) returns (answer: Answer)
      requires Valid() && WellOrdered(requested.ranges) && Disjoint(requested.ranges)
      modifies this
      ensures Valid()
      ensures Abs() == CaptureModel.Begin(old(Abs()), session, requested, now, digestReady)
      ensures answer ==
        if !StartsAnew(World(old(Abs()), false), now) then AlreadyExecuting
        else if requested.mode == EventSequence && !digestReady then AllocationFailed
        else Answered(Success(SnapshotOf(Abs(), now)))
    {
      ExpireLocked(now);
      if status == Active || status == Finalizing || queue != [] || processing {
        return AlreadyExecuting;
      }
      Renumber();
      if requested.mode == EventSequence && !digestReady {
        ResetLocked();
        return AllocationFailed;
      }
      Start(session, requested, now);
      answer := Answered(Success(SnapshotOf(View(), now)));
    }

    method ResultLocked(now: nat) returns (answer: Answer)
      requires Shape() && status != Idle
      ensures answer == Answered(ResultOf(Abs(), now))
    {
      if counts.overflow > 0 {
        return Answered(QueueOverflowed(SnapshotOf(View(), now)));
      }
      answer := Answered(Success(SnapshotOf(View(), now)));
    }

    method Progress(id: CaptureId, now: nat) returns (answer: Answer)
      requires Valid()
      modifies `status, `accepting, `times, `invalidReasons
      ensures Valid()
      ensures Abs() == Expire(old(Abs()), now)
      ensures answer == if Refers(Abs(), id) then Answered(ResultOf(Abs(), now)) else UnknownCapture
    {
      ExpireLocked(now);
      if status == Idle || id != captureId {
        return UnknownCapture;
      }
      answer := ResultLocked(now);
    }

    method FinalizeEventSequence(hash: string -> string, fault: bool)
      requires Valid()
      modifies `sequence, `detail, `invalidReasons
      ensures Valid()
      ensures Abs() == FinalizeSequence(old(Abs()), hash, fault)
    {
      if config.mode != EventSequence || sequence.sha.Some? {
        return;
      }
      if fault || sequence.digest.None? || config.manifest.None? {
        sequence := Sequence(None, None, Some(false));
        AddInvalidReason(DigestFailure);
        return;
      }
      var manifest := config.manifest.value;
      var sha := hash(sequence.digest.value);
      var matched := counts.received == manifest.eventTotal && sha == Lower(manifest.sha256);
      sequence := Sequence(None, Some(sha), Some(matched));
      if !matched {
        AddInvalidReason(SequenceMismatch);
        if |detail.samples| < config.sampleLimit {
          detail := detail.(samples := detail.samples
            + [SequenceDifference(manifest.eventTotal, counts.received, Lower(manifest.sha256), sha)]);
        }
      }
    }

    method FinalizeStaticSet()
      requires Valid()
      modifies `invalidReasons
      ensures Valid()
      ensures Abs() == FinalizeStatic(old(Abs()))
    {
      if config.mode != StaticSet {
        return;
      }
      var missing := if tally.expected >= tally.unique then tally.expected - tally.unique else 0;
      if missing != 0 || tally.duplicates != 0 || tally.unmatched != 0 {
        AddInvalidReason(StaticSetMismatch);
      }
    }

    method DiscardLocked(now: nat, reason: Reason)
      requires Valid()
      modifies `status, `accepting, `times, `invalidReasons, `queue, `counts, `log
      ensures Valid()
      ensures Abs() == Discard(old(Abs()), now, reason)
    {
      log := log.(discarded := log.discarded + queue);
      counts := counts.(discarded := counts.discarded + |queue|);
      queue := [];
      Close(Aborted, now, reason);
    }

    method LeaveWait(now: nat, hash: string -> string, fault: bool)
      requires Valid()
      modifies `status, `accepting, `times, `invalidReasons, `queue, `counts, `log, `sequence, `detail
      ensures Valid()
      ensures Abs() == EndLeave(old(Abs()), now, hash, fault)
    {
      var drained := queue == [] && !processing;
      if !drained {
        DiscardLocked(now, DrainTimeout);
      } else if status == Finalizing {
        FinalizeEventSequence(hash, fault);
        FinalizeStaticSet();
        status := Finalized;
        times := times.(ended := now);
      } else if (status == TimedOut || status == Aborted) && times.ended == 0 {
        times := times.(ended := now);
      }
      if status == TimedOut || status == Aborted {
        FinalizeEventSequence(hash, fault);
      }
    }

    method OtherThread(e: Event)
      requires Valid() && DuringWait(e)
      modifies this
      ensures Valid()
      ensures Abs() == ThreadStep(old(Abs()), e)
    {
      match e
      case FragmentSeen(source, now) => RecordFragment(source, now);
      case ObjectSeen(m, now) => RecordObject(m, now);
      case WorkerTurn(now, fault) => WorkerTurn(now, fault);
    }

    /** While `end` waits without the mutex, producers and worker run in any order. */
    method Wait(others: seq<Event>, ghost hash: string -> string)
      requires Valid() && forall i :: 0 <= i < |others| ==> DuringWait(others[i])
      modifies this
      ensures Valid() && (old(status) != Idle ==> status != Idle)
      ensures World(Abs(), true) == RunFrom(World(old(Abs()), true), others, hash)
    {
      ghost var entered := World(Abs(), true);
      assert others[..0] == [];
      for i := 0 to |others|
        invariant Valid() && (old(status) != Idle ==> status != Idle)
        invariant World(Abs(), true) == RunFrom(entered, others[..i], hash)
      {
        ghost var before := Abs();
        OtherThread(others[i]);
        ThreadStepIsStep(before, others[i], hash);
        ExtendRun(entered, others, i, hash);
      }
      assert others[..|others|] == others;
    }

    /** The start of `end`, for a capture that it may end. */
    method StopAccepting()
      requires Valid()
      modifies `status, `accepting
      ensures Valid()
      ensures Abs() == if old(status) == Active then old(Abs()).(status := Finalizing, accepting := false) else old(Abs())
    {
      if status == Active {
        status := Finalizing;
        accepting := false;
      }
    }

    /** `end`: while it waits without the mutex, producers and worker run in any order. */
    method End(id: CaptureId, now: nat, others: seq<Event>, later: nat, hash: string -> string, fault: bool)
        returns (answer: Answer)
      requires Valid() && forall i :: 0 <= i < |others| ==> DuringWait(others[i])
      modifies this
      ensures Valid()
      ensures !Refers(Expire(old(Abs()), now), id) ==> Abs() == Expire(old(Abs()), now) && answer == UnknownCapture
      ensures Refers(Expire(old(Abs()), now), id) ==>
        && Abs() == EndLeave(RunFrom(World(EndEnter(old(Abs()), id, now), true), others, hash).c, later, hash, fault)
        && Abs().status != Idle && answer == Answered(ResultOf(Abs(), later))
    {
      ExpireLocked(now);
      if status == Idle || id != captureId {
        return UnknownCapture;
      }
      StopAccepting();
      Wait(others, hash);
      LeaveWait(later, hash, fault);
      answer := ResultLocked(later);
    }

    method AbortCapture(reason: Reason, now: nat, hash: string -> string, fault: bool)
      requires Valid()
      modifies `status, `accepting, `times, `invalidReasons, `queue, `counts, `log, `sequence, `detail
      ensures Valid()
      ensures Abs() == Abort(old(Abs()), reason, now, hash, fault)
    {
      if status == Active || status == Finalizing || status == TimedOut {
        DiscardLocked(now, reason);
        FinalizeEventSequence(hash, fault);
      }
    }
  }

  lemma {:induction false} ExtendRun(w: World, events: seq<Event>, i: nat, hash: string -> string)
    requires i < |events|
    ensures RunFrom(w, events[..i + 1], hash) == Step(RunFrom(w, events[..i], hash), events[i], hash)
  {
    RunFromSnoc(w, events[..i + 1], hash);
    assert events[..i + 1][..i] == events[..i];
  }

  lemma {:induction false} RunFromSnoc(w: World, events: seq<Event>, hash: string -> string)
    requires events != []
    ensures RunFrom(w, events, hash) == Step(RunFrom(w, events[..|events| - 1], hash), events[|events| - 1], hash)
    decreases |events|
  {
    var n := |events| - 1;
    if n > 0 {
      RunFromSnoc(Step(w, events[0], hash), events[1..], hash);
      assert events[1..][..n - 1] == events[..n][1..];
    } else {
      assert RunFrom(Step(w, events[0], hash), events[1..], hash) == Step(w, events[0], hash);
    }
  }
}
