// What each call and each step of a capture does, in the terms of its callers: what begins, what
// is accepted and lost, what ends, what is aborted, and what is answered.

module CaptureSteps {
  import opened Common
  import opened CaptureConfig
  import opened CaptureModel
  import opened CaptureInvariant
  import opened CaptureVerdict
  import opened CaptureResult

  // ------------------------------------------------------------- begin

  predicate Busy(e: Capture) {
    e.status == Active || e.status == Finalizing || e.queue != []
  }

  /** A fresh capture: nothing of the one before is left, and its id was never given out. */
  ghost predicate Fresh(t: Capture, before: Capture, session: nat, config: Config, now: nat) {
    && t.status == Active && t.accepting && t.config == config
    && t.id == CaptureId(session, before.nextNumber + 1) && t.nextNumber == t.id.number
    && t.times.started == now && t.times.deadline - now == config.durationMs * 1000 * 1000 && t.times.ended == 0
    && t.queue == [] && t.reasons == [] && t.log == EMPTY_LOG && t.detail.samples == []
    && t.counts.offered == 0 && t.counts.received == 0 && t.counts.fragments == 0 && t.counts.overflow == 0
    && t.counts.discarded == 0 && t.counts.maxDepth == 0
    && t.cover.expected == |CoverSet(config.ranges)| && t.cover.seen == {} && t.cover.unique == 0
    && t.cover.duplicates == 0 && t.cover.unmatched == 0
    && (config.mode == EventSequence <==> t.sequence.digest == Some("")) && t.sequence.matched.None?
  }

  /**
   * `begin`: refused while a capture is active, finalizing or undrained; without a digest for an event
   * capture nothing is active afterwards; otherwise a fresh capture runs.
   */
  lemma {:induction false} BeginStartsFresh(w: World, session: nat, config: Config, now: nat, ready: bool, hash: string -> string)
    requires Inv(w.c, hash) && !w.waiting && GoodConfig(config)
    ensures var e := Expire(w.c, now);
            var t := Step(w, BeginCall(session, config, now, ready), hash);
            && !t.waiting
            && (Busy(e) ==> t.c == e)
            && (!Busy(e) && config.mode == EventSequence && !ready ==>
                  t.c.status == Idle && !t.c.accepting && t.c.nextNumber == w.c.nextNumber + 1)
            && (!Busy(e) && (config.mode != EventSequence || ready) ==> Fresh(t.c, w.c, session, config, now))
  {
    CoverSize(config.ranges);
  }

  /** The deadline of every capture lies its duration after its start; ids only grow. */
  ghost predicate Dated(c: Capture) {
    && (c.status != Idle ==> c.times.deadline == c.times.started + c.config.durationMs * 1_000_000)
    && c.id.number <= c.nextNumber
  }

  /** The same capture: everything that `begin` fixed, and nothing more lost at the queue. */
  predicate SameCapture(c: Capture, t: Capture) {
    && t.id == c.id && t.nextNumber == c.nextNumber && t.config == c.config
    && t.times.deadline == c.times.deadline && t.times.started == c.times.started
    && t.log.lost == c.log.lost
  }

  lemma {:induction false} RecordKeepsIdentity(c: Capture, m: Measurement, fault: bool)
    ensures SameCapture(c, CountReceived(c, m)) && SameCapture(c, MatchPoint(c, m)) && SameCapture(c, HashRecord(c, m, fault))
  {
  }

  lemma {:induction false} ProcessKeepsIdentity(c: Capture, m: Measurement, fault: bool)
    ensures SameCapture(c, Process(c, m, fault))
  {
    RecordKeepsIdentity(c, m, fault);
    RecordKeepsIdentity(CountReceived(c, m), m, fault);
  }

  lemma {:induction false} WorkKeepsIdentity(c: Capture, now: nat, fault: bool)
    ensures SameCapture(c, Work(c, now, fault))
  {
    var e := Expire(c, now);
    if e.queue != [] { ProcessKeepsIdentity(e.(queue := e.queue[1..]), e.queue[0], fault); }
  }

  lemma {:induction false} FinishKeepsIdentity(c: Capture, hash: string -> string, fault: bool)
    ensures SameCapture(c, FinalizeSequence(c, hash, fault)) && FinalizeSequence(c, hash, fault).status == c.status
  {
  }

  lemma {:induction false} EndKeepsIdentity(c: Capture, now: nat, hash: string -> string, fault: bool)
    ensures SameCapture(c, EndLeave(c, now, hash, fault))
  {
    FinishKeepsIdentity(c, hash, fault);
    FinishKeepsIdentity(Discard(c, now, DrainTimeout), hash, fault);
    FinishKeepsIdentity(EndedAt(c, now), hash, fault);
  }

  lemma {:induction false} AbortKeepsIdentity(c: Capture, reason: Reason, now: nat, hash: string -> string, fault: bool)
    ensures SameCapture(c, Abort(c, reason, now, hash, fault))
    ensures c.status == Idle ==> Abort(c, reason, now, hash, fault) == c
  {
    FinishKeepsIdentity(Discard(c, now, reason), hash, fault);
  }

  lemma {:induction false} StepKeepsDates(w: World, e: Event, hash: string -> string)
    requires Dated(w.c) && Placed(w)
    ensures Dated(Step(w, e, hash).c) && w.c.nextNumber <= Step(w, e, hash).c.nextNumber
  {
    match e
    case WorkerTurn(now, fault) => WorkKeepsIdentity(w.c, now, fault);
    case EndReturn(now, fault) => EndKeepsIdentity(w.c, now, hash, fault);
    case AbortCall(reason, now, fault) => AbortKeepsIdentity(w.c, reason, now, hash, fault);
    case _ =>
  }

  lemma {:induction false} RunKeepsDates(events: seq<Event>, hash: string -> string)
    requires GoodEvents(events)
    ensures Dated(Run(events, hash).c)
  {
    if events != [] {
      var head := events[..|events| - 1];
      assert GoodEvents(head);
      RunKeeps(head, hash);
      RunKeepsDates(head, hash);
      StepKeepsDates(Run(head, hash), events[|events| - 1], hash);
    }
  }

  /** An active capture is timed out exactly when it is looked at its duration or more after its start. */
  lemma {:induction false} TimesOutExactly(events: seq<Event>, id: CaptureId, now: nat, hash: string -> string)
    requires var w := Run(events, hash); w.c.status == Active && !w.waiting && GoodEvents(events)
    ensures var w := Run(events, hash);
            var t := Step(w, ProgressCall(id, now), hash).c;
            if now >= w.c.times.started + w.c.config.durationMs * 1_000_000
            then && t.status == TimedOut && !t.accepting && DeadlineExceeded in t.reasons
                 && t.times.ended == w.c.times.deadline && t.queue == w.c.queue
            else t == w.c
  {
    RunKeepsDates(events, hash);
  }

  // ------------------------------------------------------------- offers

  predicate Accepts(c: Capture, source: Source, now: nat) {
    c.status == Active && now < c.times.deadline && source in c.config.sources
  }

  /**
   * A measurement is taken exactly from a source of an active capture before its deadline: it joins
   * the queue if there is room and is counted as lost if there is none.
   */
  lemma {:induction false} OfferIsQueuedOrLost(c: Capture, m: Measurement, now: nat, hash: string -> string)
    requires Inv(c, hash)
    ensures var t := Offer(c, m, now);
            && (!Accepts(c, m.source, now) ==> t == Expire(c, now))
            && (Accepts(c, m.source, now) && |c.queue| < c.config.queueCapacity ==>
                  && t.queue == c.queue + [m] && t.counts.overflow == c.counts.overflow
                  && t.counts.maxDepth == (if |t.queue| > c.counts.maxDepth then |t.queue| else c.counts.maxDepth)
                  && (QueueOverflow in t.reasons <==> QueueOverflow in c.reasons))
            && (Accepts(c, m.source, now) && |c.queue| >= c.config.queueCapacity ==>
                  && t.queue == c.queue && t.counts.overflow == Capped(c.log.lost + c.log.faults + 1)
                  && QueueOverflow in t.reasons)
  {
  }

  /** A fragment is counted exactly from a source of an active capture before its deadline. */
  lemma {:induction false} FragmentIsCounted(c: Capture, source: Source, now: nat, hash: string -> string)
    requires Inv(c, hash)
    ensures var t := Fragment(c, source, now);
            && (!Accepts(c, source, now) ==> t == Expire(c, now))
            && (Accepts(c, source, now) ==>
                  && t == c.(counts := c.counts.(fragments := t.counts.fragments), reasons := t.reasons)
                  && (c.counts.fragments < MAX64 ==> t.counts.fragments == c.counts.fragments + 1))
  {
  }

  /** In this step of the run a measurement meets a full queue. */
  predicate MetFullQueue(events: seq<Event>, j: nat, hash: string -> string) {
    && j < |events| && events[j].ObjectSeen?
    && var c := Run(events[..j], hash).c;
       Accepts(c, events[j].m.source, events[j].now) && |c.queue| >= c.config.queueCapacity
  }

  lemma {:induction false} OnlyOffersOverflow(w: World, e: Event, hash: string -> string)
    requires Inv(w.c, hash) && Placed(w) && QueueOverflow !in w.c.reasons && GoodEvent(e)
    requires !(e.ObjectSeen? && Accepts(w.c, e.m.source, e.now) && |w.c.queue| >= w.c.config.queueCapacity)
    ensures QueueOverflow !in Step(w, e, hash).c.reasons
  {
    match e
    case ObjectSeen(m, now) => OfferIsQueuedOrLost(w.c, m, now, hash);
    case WorkerTurn(now, fault) => WorkKeepsLosses(w.c, now, fault, hash);
    case EndReturn(now, fault) => if w.waiting { EndKeepsLosses(w.c, now, fault, hash); }
    case AbortCall(reason, now, fault) => AbortKeepsLosses(w.c, reason, now, fault, hash);
    case _ =>
  }

  lemma {:induction false} WorkKeepsLosses(c: Capture, now: nat, fault: bool, hash: string -> string)
    requires Inv(c, hash)
    ensures QueueOverflow in Work(c, now, fault).reasons <==> QueueOverflow in c.reasons
  {
    WorkKeeps(c, now, fault, hash);
    WorkKeepsIdentity(c, now, fault);
  }

  lemma {:induction false} EndKeepsLosses(c: Capture, now: nat, fault: bool, hash: string -> string)
    requires Inv(c, hash) && c.status != Idle && c.status != Active
    ensures QueueOverflow in EndLeave(c, now, hash, fault).reasons <==> QueueOverflow in c.reasons
  {
    EndLeaveKeeps(c, now, hash, fault);
    EndKeepsIdentity(c, now, hash, fault);
  }

  lemma {:induction false} AbortKeepsLosses(c: Capture, reason: Reason, now: nat, fault: bool, hash: string -> string)
    requires Inv(c, hash) && (reason == SessionDisconnected || reason == HostShutdown)
    ensures QueueOverflow in Abort(c, reason, now, hash, fault).reasons <==> QueueOverflow in c.reasons
  {
    AbortKeeps(c, reason, now, hash, fault);
    AbortKeepsIdentity(c, reason, now, hash, fault);
  }

  /** A capture that lost something met a full queue in its run. */
  lemma {:induction false} LossMeansFullQueue(events: seq<Event>, hash: string -> string)
    requires GoodEvents(events) && QueueOverflow in Run(events, hash).c.reasons
    ensures exists j: nat :: MetFullQueue(events, j, hash)
  {
    if events != [] {
      var n := |events| - 1;
      assert GoodEvents(events[..n]);
      RunKeeps(events[..n], hash);
      if MetFullQueue(events, n, hash) {
      } else if QueueOverflow in Run(events[..n], hash).c.reasons {
        LossMeansFullQueue(events[..n], hash);
        var j: nat :| MetFullQueue(events[..n], j, hash);
        assert events[..n][..j] == events[..j];
        assert MetFullQueue(events, j, hash);
      } else {
        OnlyOffersOverflow(Run(events[..n], hash), events[n], hash);
      }
    }
  }

  // ------------------------------------------------------------- end

  /** `end` up to its wait: only the current capture is ended, and it takes nothing any more. */
  lemma {:induction false} EndStopsAccepting(w: World, id: CaptureId, now: nat, hash: string -> string)
    requires Inv(w.c, hash) && !w.waiting
    ensures var t := Step(w, EndCall(id, now), hash);
            && (w.c.status == Idle || id != w.c.id ==> t == World(Expire(w.c, now), false))
            && (w.c.status != Idle && id == w.c.id ==>
                  && t.waiting && !t.c.accepting && t.c.queue == w.c.queue && t.c.log == w.c.log
                  && t.c.status == if w.c.status == Active then (if now < w.c.times.deadline then Finalizing else TimedOut)
                                   else w.c.status)
  {
  }

  lemma {:induction false} UndrainedIsAborted(c: Capture, now: nat, fault: bool, hash: string -> string)
    requires c.queue != []
    ensures var t := EndLeave(c, now, hash, fault);
            && t.queue == [] && t.log.processed == c.log.processed && !t.accepting
            && t.status == Aborted && DrainTimeout in t.reasons && t.times.ended == now
            && t.counts.discarded == c.counts.discarded + |c.queue|
  {
  }

  lemma {:induction false} DrainedIsFinal(c: Capture, now: nat, fault: bool, hash: string -> string)
    requires c.queue == []
    ensures var t := EndLeave(c, now, hash, fault);
            && t.queue == [] && t.log.processed == c.log.processed
            && (c.status == Finalizing ==> t.status == Finalized && t.times.ended == now)
            && (c.status != Finalizing ==> t.status == c.status)
  {
  }

  /** `end` after its wait: an undrained capture is aborted, a drained one is final, an ended one stays. */
  lemma {:induction false} EndReturnDecides(w: World, now: nat, fault: bool, hash: string -> string)
    requires w.waiting
    ensures var t := Step(w, EndReturn(now, fault), hash);
            && !t.waiting && t.c.queue == [] && t.c.log.processed == w.c.log.processed
            && (w.c.queue != [] ==>
                  && t.c.status == Aborted && DrainTimeout in t.c.reasons && t.c.times.ended == now
                  && t.c.counts.discarded == w.c.counts.discarded + |w.c.queue|)
            && (w.c.queue == [] && w.c.status == Finalizing ==> t.c.status == Finalized && t.c.times.ended == now)
            && (w.c.queue == [] && w.c.status != Finalizing ==> t.c.status == w.c.status)
  {
    if w.c.queue != [] { UndrainedIsAborted(w.c, now, fault, hash); } else { DrainedIsFinal(w.c, now, fault, hash); }
  }

  // ------------------------------------------------------------- abort

  predicate Abortable(c: Capture) {
    c.status == Active || c.status == Finalizing || c.status == TimedOut
  }

  lemma {:induction false} AbortFinishesDigest(c: Capture, reason: Reason, now: nat, fault: bool, hash: string -> string)
    requires Inv(c, hash) && Abortable(c) && (reason == SessionDisconnected || reason == HostShutdown)
    ensures var t := Abort(c, reason, now, hash, fault);
            t.config.mode == EventSequence ==> t.sequence.matched.Some?
  {
    AbortKeeps(c, reason, now, hash, fault);
  }

  /**
   * `abort`: a running or timed-out capture is over at once: it takes nothing, its queue is discarded
   * and counted, the reason stands, and an event digest is finished.  An idle or ended one stays as it is.
   */
  lemma {:induction false} AbortEnds(w: World, reason: Reason, now: nat, fault: bool, hash: string -> string)
    requires Inv(w.c, hash) && !w.waiting && (reason == SessionDisconnected || reason == HostShutdown)
    ensures var t := Step(w, AbortCall(reason, now, fault), hash);
            && !t.waiting
            && (!Abortable(w.c) ==> t == w)
            && (Abortable(w.c) ==>
                  && t.c.status == Aborted && !t.c.accepting && t.c.queue == [] && reason in t.c.reasons
                  && t.c.times.ended == now && t.c.counts.discarded == w.c.counts.discarded + |w.c.queue|
                  && t.c.log.discarded == w.c.log.discarded + w.c.queue
                  && t.c.id == w.c.id && t.c.config == w.c.config && !Valid(t.c)
                  && (t.c.config.mode == EventSequence ==> t.c.sequence.matched.Some?)
                  && (forall q :: q in w.c.reasons ==> q in t.c.reasons))
  {
    if Abortable(w.c) { AbortFinishesDigest(w.c, reason, now, fault, hash); }
  }

  lemma {:induction false} AbortedStays(w: World, e: Event, hash: string -> string)
    requires Inv(w.c, hash) && Placed(w) && w.c.status == Aborted && GoodEvent(e) && !e.BeginCall?
    ensures Step(w, e, hash).c.status == Aborted && Step(w, e, hash).c.id == w.c.id
  {
    if e.EndReturn? { EndKeepsIdentity(w.c, e.now, hash, e.finishFault); }
  }

  /** An aborted capture never becomes valid, whatever follows, until another one begins. */
  lemma {:induction false} AbortedNeverValid(w: World, events: seq<Event>, hash: string -> string)
    requires Inv(w.c, hash) && Placed(w) && w.c.status == Aborted && GoodEvents(events)
    requires forall i :: 0 <= i < |events| ==> !events[i].BeginCall?
    ensures var t := RunFrom(w, events, hash).c; t.status == Aborted && t.id == w.c.id && !Valid(t)
    decreases |events|
  {
    if events != [] {
      AbortedStays(w, events[0], hash);
      StepKeeps(w, events[0], hash);
      AbortedNeverValid(Step(w, events[0], hash), events[1..], hash);
    }
  }

  // ------------------------------------------------------------- answers

  /** The answer is an overflow exactly when something offered was lost or could not be processed. */
  lemma {:induction false} OverflowIsAnswered(c: Capture, now: nat, hash: string -> string)
    requires Inv(c, hash) && c.status != Idle
    ensures ResultOf(c, now).QueueOverflowed? <==> QueueOverflow in c.reasons || ProcessingFailure in c.reasons
    ensures ResultOf(c, now).snapshot == SnapshotOf(c, now)
  {
  }

  /** What a snapshot says, in terms of what happened to the capture. */
  lemma {:induction false} SnapshotReports(c: Capture, now: nat, hash: string -> string)
    requires Inv(c, hash) && c.status != Idle
    ensures var v := SnapshotOf(c, now);
            && v.id == c.id && v.mode == c.config.mode && v.sources == c.config.sources
            && (v.valid.Some? <==> v.state != ACTIVE) && (v.valid == Some(true) <==> Valid(c))
            && (v.state == ACTIVE <==> c.status == Active || c.status == Finalizing)
            && (v.state == FINALIZED <==> c.status == Finalized) && (v.state == TIMED_OUT <==> c.status == TimedOut)
            && v.offeredTotal == Capped(|c.log.offered|) && v.receivedTotal == Capped(|c.log.processed|)
            && v.queueOverflow == Capped(c.log.lost + c.log.faults) && v.discardedOnAbort == |c.log.discarded|
            && v.currentQueueDepth == |c.queue| && v.queueCapacity == c.config.queueCapacity
            && v.unmatchedTotal == Capped(Strays(c.config.ranges, Judged(c)))
            && (c.config.mode == StaticSet ==>
                  && v.receivedUnique == Some(Capped(|SeenIn(c.config.ranges, c.log.processed)|))
                  && v.duplicates == Some(Capped(Repeats(c.config.ranges, c.log.processed)))
                  && v.expectedTotal == Some(|CoverSet(c.config.ranges)|))
            && (c.times.ended >= c.times.started && c.times.ended > 0 ==>
                  v.durationMs == (c.times.ended - c.times.started) as real / 1000000.0)
  {
    if c.config.mode == StaticSet { CoverSize(c.config.ranges); }
  }
}
