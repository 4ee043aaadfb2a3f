// The snapshot the host sends and the checks the Python client makes on it.

module CaptureResult {
  import opened Common
  import opened CaptureConfig
  import opened CaptureModel
  import opened CaptureInvariant
  import opened CaptureVerdict

  datatype WireState = ACTIVE | FINALIZED | TIMED_OUT | ABORTED
  datatype Scope = NativeStaticSet | ManifestMatched | ManifestRequired | ObservationOnly
  datatype Unknown = MismatchRequiresManifestDiff | NotFinalized | WithoutGroundTruth

  /** The JSON object of `snapshot_locked`, typed.  `None` is JSON null. */
  datatype Snapshot = Snapshot(
    id: CaptureId, state: WireState, valid: Option<bool>, mode: Mode, sources: seq<Source>,
    expectedTotal: Option<nat>, offeredTotal: nat, receivedTotal: nat,
    receivedUnique: Option<nat>, duplicates: Option<nat>, missing: Option<nat>,
    unmatchedTotal: nat, fragmentsTotal: nat, durationMs: real, throughputPerSec: real,
    currentQueueDepth: nat, maxQueueDepth: nat, queueCapacity: nat, queueOverflow: nat, discardedOnAbort: nat,
    invalidReasons: seq<Reason>, scope: Scope, unknownReason: Option<Unknown>,
    receivedSha: Option<string>, sequenceMatch: Option<bool>, declaresRecordFormat: bool,
    mismatchSample: seq<Sample>, mismatchSampleLimit: nat,
    byKind: map<string, nat>, byVariation: map<(nat, nat), nat>, manifest: Option<Manifest>)

  function StateName(s: Status): WireState
    requires s != Idle
  {
    match s
    case Active => ACTIVE
    case Finalizing => ACTIVE
    case Finalized => FINALIZED
    case TimedOut => TIMED_OUT
    case Aborted => ABORTED
  }

  /** `snapshot_locked` for a capture that has begun. */
  function SnapshotOf(c: Capture, now: nat): Snapshot
    requires c.status != Idle
  {
    var fixedSet, events := c.config.mode == StaticSet, c.config.mode == EventSequence;
    var matched := events && c.sequence.matched == Some(true);
    var end := if c.times.ended == 0 then now else c.times.ended;
    var durationNs := if end >= c.times.started then end - c.times.started else 0;
    var terminal := c.status == Finalized || c.status == TimedOut || c.status == Aborted;
    Snapshot(
      c.id, StateName(c.status),
      if terminal then Some(c.status == Finalized && c.reasons == []) else None,
      c.config.mode, c.config.sources,
      if fixedSet then Some(c.cover.expected)
      else if events && c.config.manifest.Some? then Some(c.config.manifest.value.eventTotal) else None,
      c.counts.offered, c.counts.received,
      if fixedSet then Some(c.cover.unique) else None,
      if fixedSet then Some(c.cover.duplicates) else None,
      if fixedSet then Some(Missing(c.cover)) else None,
      c.cover.unmatched, c.counts.fragments,
      durationNs as real / 1000000.0,
      if durationNs == 0 then 0.0 else c.counts.received as real * 1000000000.0 / durationNs as real,
      |c.queue|, c.counts.maxDepth, c.config.queueCapacity, c.counts.overflow, c.counts.discarded,
      c.reasons,
      if fixedSet then NativeStaticSet
      else if matched then ManifestMatched
      else if events then ManifestRequired
      else ObservationOnly,
      if fixedSet || matched then None
      else if events then Some(if c.sequence.sha.Some? then MismatchRequiresManifestDiff else NotFinalized)
      else Some(WithoutGroundTruth),
      c.sequence.sha, c.sequence.matched, events,
      c.detail.samples, c.config.sampleLimit, c.detail.byKind, c.detail.byVariation, c.config.manifest)
  }

  datatype Reply = Success(snapshot: Snapshot) | QueueOverflowed(snapshot: Snapshot)

  /** `result_locked`. */
  function ResultOf(c: Capture, now: nat): Reply
    requires c.status != Idle
  {
    if c.counts.overflow > 0 then QueueOverflowed(SnapshotOf(c, now)) else Success(SnapshotOf(c, now))
  }

  // ------------------------------------------------------ CaptureResult.from_mapping

  predicate HeaderOk(v: Snapshot) {
    && v.id.session > 0
    && (if v.state == ACTIVE then v.valid.None? else v.valid.Some?)
    && (v.state == TIMED_OUT || v.state == ABORTED ==> v.valid == Some(false))
    && 1 <= |v.sources| <= 2 && Distinct(v.sources)
  }

  predicate CountsOk(v: Snapshot) {
    && 1 <= v.queueCapacity <= 65536
    && v.currentQueueDepth <= v.maxQueueDepth <= v.queueCapacity
    && v.receivedTotal <= v.offeredTotal
    && v.mismatchSampleLimit <= 1024
    && v.durationMs >= 0.0 && v.throughputPerSec >= 0.0
    && Distinct(v.invalidReasons)
    && |v.mismatchSample| <= v.mismatchSampleLimit
    && |v.byKind| <= 256 && "" !in v.byKind && |v.byVariation| <= 256
    && (v.valid == Some(true) ==> v.invalidReasons == [] && v.queueOverflow == 0)
    && (v.receivedSha.Some? ==> LowerSha256(v.receivedSha.value))
  }

  predicate StaticProofOk(v: Snapshot) {
    && v.expectedTotal.Some? && v.receivedUnique.Some? && v.duplicates.Some? && v.missing.Some?
    && v.scope == NativeStaticSet && v.unknownReason.None?
    && v.receivedUnique.value <= v.expectedTotal.value
    && v.missing.value == v.expectedTotal.value - v.receivedUnique.value
    && v.manifest.None? && v.receivedSha.None? && v.sequenceMatch.None? && !v.declaresRecordFormat
  }

  predicate EventProofOk(v: Snapshot) {
    && v.receivedUnique.None? && v.duplicates.None? && v.missing.None?
    && v.manifest.Some?
    && ValidManifest(Raw(v.manifest.value))
    && v.expectedTotal == Some(v.manifest.value.eventTotal)
    && v.declaresRecordFormat
    && match v.sequenceMatch
       case Some(true) =>
         v.receivedSha == Some(Lower(v.manifest.value.sha256)) && v.receivedTotal == v.manifest.value.eventTotal
         && v.scope == ManifestMatched && v.unknownReason.None?
       case Some(false) =>
         v.receivedSha.Some? && v.scope == ManifestRequired
         && v.unknownReason == Some(MismatchRequiresManifestDiff) && v.valid == Some(false)
       case None =>
         v.receivedSha.None? && v.scope == ManifestRequired
         && v.unknownReason == Some(NotFinalized) && v.state != FINALIZED
  }

  predicate ObservationProofOk(v: Snapshot) {
    && v.receivedUnique.None? && v.duplicates.None? && v.missing.None?
    && v.scope == ObservationOnly && v.expectedTotal.None? && v.manifest.None?
    && v.unknownReason == Some(WithoutGroundTruth)
    && v.receivedSha.None? && v.sequenceMatch.None? && !v.declaresRecordFormat
  }

  /** The client recomputes the verdict from the counts and compares. */
  predicate ValidityOk(v: Snapshot) {
    var truthComplete :=
      match v.mode
      case StaticSet => v.missing == Some(0) && v.duplicates == Some(0) && v.unmatchedTotal == 0
      case EventSequence => v.sequenceMatch == Some(true)
      case Observation => true;
    v.state == ACTIVE
    || v.valid == Some(v.state == FINALIZED && truthComplete && v.invalidReasons == [] && v.queueOverflow == 0)
  }

  predicate FromMappingAccepts(v: Snapshot) {
    && HeaderOk(v) && CountsOk(v) && ValidityOk(v)
    && match v.mode
       case StaticSet => StaticProofOk(v)
       case EventSequence => EventProofOk(v)
       case Observation => ObservationProofOk(v)
  }

  // ------------------------------------------------------------- agreement

  lemma {:induction false} HeaderAgrees(c: Capture, now: nat, hash: string -> string)
    requires Inv(c, hash) && c.status != Idle
    ensures HeaderOk(SnapshotOf(c, now))
  {
    assert c.status.Active? || c.status.Finalizing? || c.status.Finalized? || c.status.TimedOut? || c.status.Aborted?;
    if c.status == TimedOut || c.status == Aborted { assert c.reasons != []; }
  }

  lemma {:induction false} DivisionIsNonNegative(a: nat, b: nat)
    requires b > 0
    ensures a as real * 1000000000.0 / b as real >= 0.0
    ensures b as real / 1000000.0 >= 0.0
  {
  }

  lemma {:induction false} CountsAgree(c: Capture, now: nat, hash: string -> string)
    requires Inv(c, hash) && c.status != Idle
    requires forall t :: LowerSha256(hash(t))
    ensures CountsOk(SnapshotOf(c, now))
  {
    var v := SnapshotOf(c, now);
    var end := if c.times.ended == 0 then now else c.times.ended;
    if end > c.times.started { DivisionIsNonNegative(c.counts.received, end - c.times.started); }
    assert |c.log.processed| <= |c.log.offered|;
    if v.valid == Some(true) { NoReasonNoLoss(c, hash); }
    if c.sequence.sha.Some? { assert c.config.mode == EventSequence; }
  }

  lemma {:induction false} NoReasonNoLoss(c: Capture, hash: string -> string)
    requires Inv(c, hash) && c.reasons == []
    ensures c.counts.overflow == 0
  {
    assert QueueOverflow !in c.reasons && ProcessingFailure !in c.reasons;
  }

  /** The point counters never exceed the configured set. */
  lemma {:induction false} StaticProofAgrees(c: Capture, now: nat, hash: string -> string)
    requires Inv(c, hash) && c.status != Idle && c.config.mode == StaticSet
    ensures StaticProofOk(SnapshotOf(c, now)) && DigestFailure !in c.reasons
  {
    CountersDecide(c.config.ranges, c.log.processed);
  }

  lemma {:induction false} StaticValidityAgrees(c: Capture, now: nat, hash: string -> string)
    requires Inv(c, hash) && c.status != Idle && c.config.mode == StaticSet
    ensures ValidityOk(SnapshotOf(c, now))
  {
    if c.reasons == [] {
      NoReasonNoLoss(c, hash);
      assert StaticSetMismatch !in c.reasons;
    }
  }

  lemma {:induction false} OtherValidityAgrees(c: Capture, now: nat, hash: string -> string)
    requires Inv(c, hash) && c.status != Idle && c.config.mode != StaticSet
    ensures ValidityOk(SnapshotOf(c, now))
  {
    if c.reasons == [] {
      NoReasonNoLoss(c, hash);
      assert SequenceMismatch !in c.reasons && DigestFailure !in c.reasons;
    }
  }

  lemma {:induction false} EventProofAgrees(c: Capture, now: nat, hash: string -> string)
    requires Inv(c, hash) && c.status != Idle && c.config.mode == EventSequence
    ensures EventProofOk(SnapshotOf(c, now)) <==> DigestFailure !in c.reasons
  {
    if c.sequence.matched == Some(false) && c.status == Finalized { assert c.reasons != []; }
  }

  /**
   * Every snapshot of every reachable capture passes every check of the client, the recomputed
   * verdict included, unless the digest provider failed; then the client always refuses it.
   */
  lemma {:induction false} SnapshotsAreAccepted(events: seq<Event>, now: nat, hash: string -> string)
    requires GoodEvents(events) && Run(events, hash).c.status != Idle
    requires forall t :: LowerSha256(hash(t))
    ensures var c := Run(events, hash).c;
            FromMappingAccepts(SnapshotOf(c, now)) <==> DigestFailure !in c.reasons
  {
    var c := Run(events, hash).c;
    RunKeeps(events, hash);
    HeaderAgrees(c, now, hash);
    CountsAgree(c, now, hash);
    if c.config.mode == StaticSet {
      StaticProofAgrees(c, now, hash);
      StaticValidityAgrees(c, now, hash);
    } else {
      OtherValidityAgrees(c, now, hash);
      if c.config.mode == EventSequence { EventProofAgrees(c, now, hash); }
    }
  }

  predicate FinishFails(e: Event) {
    (e.EndReturn? || e.AbortCall?) && e.finishFault
  }

  lemma {:induction false} CountDoesNotFail(c: Capture, m: Measurement)
    requires DigestFailure !in c.reasons
    ensures DigestFailure !in CountReceived(c, m).reasons
  {
  }

  lemma {:induction false} ProcessDoesNotFail(d: Capture, m: Measurement, fault: bool)
    requires DigestFailure !in d.reasons
    ensures DigestFailure !in MatchPoint(d, m).reasons && DigestFailure !in HashRecord(d, m, fault).reasons
  {
  }

  lemma {:induction false} WorkDoesNotFail(c: Capture, now: nat, fault: bool)
    requires DigestFailure !in c.reasons
    ensures DigestFailure !in Work(c, now, fault).reasons
  {
    var e := Expire(c, now);
    if e.queue != [] {
      OneDoesNotFail(e.(queue := e.queue[1..]), e.queue[0], fault);
    }
  }

  lemma {:induction false} OneDoesNotFail(c: Capture, m: Measurement, fault: bool)
    requires DigestFailure !in c.reasons
    ensures DigestFailure !in Process(c, m, fault).reasons
  {
    CountDoesNotFail(c, m);
    ProcessDoesNotFail(CountReceived(c, m), m, fault);
  }

  lemma {:induction false} FinalizeDoesNotFail(c: Capture, hash: string -> string)
    requires DigestFailure !in c.reasons && Hashed(c, hash) && GoodConfig(c.config)
    ensures DigestFailure !in FinalizeSequence(c, hash, false).reasons
  {
  }

  lemma {:induction false} EndDoesNotFail(c: Capture, now: nat, hash: string -> string)
    requires Inv(c, hash) && DigestFailure !in c.reasons && c.status != Idle && c.status != Active
    ensures DigestFailure !in EndLeave(c, now, hash, false).reasons
  {
    if c.queue != [] {
      DiscardKeepsVerdict(c, now, DrainTimeout, hash);
      FinalizeDoesNotFail(Discard(c, now, DrainTimeout), hash);
    } else {
      DrainedDoesNotFail(c, now, hash);
    }
  }

  lemma {:induction false} DrainedDoesNotFail(c: Capture, now: nat, hash: string -> string)
    requires Hashed(c, hash) && GoodConfig(c.config) && DigestFailure !in c.reasons && c.queue == []
    ensures DigestFailure !in EndLeave(c, now, hash, false).reasons
  {
    FinalizeDoesNotFail(c, hash);
    FinalizeDoesNotFail(EndedAt(c, now), hash);
  }

  lemma {:induction false} AbortDoesNotFail(c: Capture, reason: Reason, now: nat, hash: string -> string)
    requires Inv(c, hash) && DigestFailure !in c.reasons && (reason == SessionDisconnected || reason == HostShutdown)
    ensures DigestFailure !in Abort(c, reason, now, hash, false).reasons
  {
    if c.status == Active || c.status == Finalizing || c.status == TimedOut {
      DiscardKeepsVerdict(c, now, reason, hash);
      FinalizeDoesNotFail(Discard(c, now, reason), hash);
    }
  }

  lemma {:induction false} OnlyFinishFaultsFail(w: World, e: Event, hash: string -> string)
    requires Inv(w.c, hash) && Placed(w) && DigestFailure !in w.c.reasons && GoodEvent(e) && !FinishFails(e)
    ensures DigestFailure !in Step(w, e, hash).c.reasons
  {
    match e
    case EndReturn(now, fault) => if w.waiting { EndDoesNotFail(w.c, now, hash); }
    case AbortCall(reason, now, fault) => AbortDoesNotFail(w.c, reason, now, hash);
    case WorkerTurn(now, fault) => WorkDoesNotFail(w.c, now, fault);
    case _ =>
  }

  /** The provider fails only where it is told to. */
  lemma {:induction false} NoFaultNoDigestFailure(events: seq<Event>, hash: string -> string)
    requires GoodEvents(events) && forall i :: 0 <= i < |events| ==> !FinishFails(events[i])
    ensures DigestFailure !in Run(events, hash).c.reasons
  {
    if events != [] {
      var head := events[..|events| - 1];
      assert GoodEvents(head);
      RunKeeps(head, hash);
      NoFaultNoDigestFailure(head, hash);
      OnlyFinishFaultsFail(Run(head, hash), events[|events| - 1], hash);
    }
  }

  /** After `begin` and `end`, an event capture waits with its digest open. */
  lemma {:induction false} BegunThenEnding(config: Config, now: nat, hash: string -> string)
    requires GoodConfig(config) && config.mode == EventSequence
    ensures var w := Run([BeginCall(1, config, now, true), EndCall(CaptureId(1, 1), now)], hash);
            && w.waiting && w.c.status == Finalizing && w.c.queue == [] && w.c.config == config
            && w.c.sequence.sha.None? && w.c.counts.overflow == 0
  {
    var begin, end := BeginCall(1, config, now, true), EndCall(CaptureId(1, 1), now);
    TwoSteps(begin, end, hash);
    var w1 := Step(START, begin, hash);
    assert w1.c.status == Active && w1.c.id == CaptureId(1, 1) && now < w1.c.times.deadline;
  }

  lemma {:induction false} TwoSteps(a: Event, b: Event, hash: string -> string)
    ensures Run([a, b], hash) == Step(Step(START, a, hash), b, hash)
  {
    assert [a, b][..1] == [a] && [a][..0] == [];
    assert Run([a], hash) == Step(START, a, hash);
  }

  /**
   * A provider that fails at the end of such a capture makes the host report success with a
   * snapshot the client refuses.
   */
  lemma {:induction false} FinishFaultIsRefused(c: Capture, now: nat, hash: string -> string)
    requires c.status == Finalizing && c.queue == [] && c.config.mode == EventSequence && c.sequence.sha.None?
    requires c.counts.overflow == 0
    ensures var d := EndLeave(c, now, hash, true);
            d.status == Finalized && ResultOf(d, now).Success? && !FromMappingAccepts(ResultOf(d, now).snapshot)
  {
    var d := EndLeave(c, now, hash, true);
    assert d.sequence == Sequence(None, None, Some(false)) && d.config == c.config;
  }
}
