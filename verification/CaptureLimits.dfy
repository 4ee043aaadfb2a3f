// When the bounded counters and stores of a capture give up, and what the verdict of every mode is
// as long as none of them does.

module CaptureLimits {
  import opened Common
  import opened CaptureConfig
  import opened CaptureModel
  import opened CaptureInvariant
  import opened CaptureVerdict
  import opened CaptureResult
  import opened CaptureSteps

  // ------------------------------------------------------------- kinds and variations

  function KindsOf(ms: seq<Measurement>): set<string> {
    set i | 0 <= i < |ms| :: ms[i].kind
  }

  function VariationsOf(ms: seq<Measurement>): set<(nat, nat)> {
    set i | 0 <= i < |ms| :: (ms[i].group, ms[i].variation)
  }

  function OfKindIn(ms: seq<Measurement>, kind: string): nat {
    if ms == [] then 0 else OfKindIn(ms[..|ms| - 1], kind) + (if ms[|ms| - 1].kind == kind then 1 else 0)
  }

  function OfVariationIn(ms: seq<Measurement>, key: (nat, nat)): nat {
    if ms == [] then 0
    else OfVariationIn(ms[..|ms| - 1], key)
         + (if (ms[|ms| - 1].group, ms[|ms| - 1].variation) == key then 1 else 0)
  }

  /** A bounded table of counts: it names the first 256 keys. */
  ghost predicate TableOk<K>(d: map<K, nat>, keys: set<K>, count: K -> nat) {
    && |d| <= 256 && d.Keys <= keys && (|d| < 256 ==> d.Keys == keys)
    && forall k :: k in d ==> d[k] == Capped(count(k))
  }

  lemma {:induction false} KeysBound<K>(d: map<K, nat>, keys: set<K>)
    requires d.Keys <= keys
    ensures |d| <= |keys| && (|d| == |keys| <==> d.Keys == keys)
  {
    assert |d| == |d.Keys|;
    assert keys == d.Keys + (keys - d.Keys);
  }

  /** One more entry: the table stays right, and gives up exactly at the 257th key. */
  lemma {:induction false} TableStep<K>(d: map<K, nat>, keys: set<K>, count: K -> nat, k: K, more: K -> nat)
    requires TableOk(d, keys, count)
    requires forall x :: x in d ==> more(x) == count(x) + (if x == k then 1 else 0)
    requires k !in keys ==> more(k) == 1
    ensures TableOk(BumpKey(d, k), keys + {k}, more)
    ensures KeyTrouble(d, k) == Some(DimensionLimit) <==> k !in d && |d| == 256
    ensures KeyTrouble(d, k) == Some(DimensionLimit) ==> |keys + {k}| > 256
  {
    var t := BumpKey(d, k);
    KeysBound(d, keys + {k});
    if k in d {
      assert t.Keys == d.Keys && |t| == |t.Keys| && |d| == |d.Keys|;
    } else if |d| < 256 {
      assert t.Keys == d.Keys + {k} && |t| == |t.Keys| && |d| == |d.Keys|;
    }
  }

  ghost predicate DetailOk(c: Capture) {
    var kinds, variations := KindsOf(c.log.processed), VariationsOf(c.log.processed);
    && TableOk(c.detail.byKind, kinds, k => OfKindIn(c.log.processed, k))
    && TableOk(c.detail.byVariation, variations, k => OfVariationIn(c.log.processed, k))
    && (DimensionLimit in c.reasons ==> |kinds| > 256 || |variations| > 256)
    && (DimensionLimit !in c.reasons ==> c.detail.byKind.Keys == kinds && c.detail.byVariation.Keys == variations)
  }

  lemma {:induction false} CountsOfOther(ms: seq<Measurement>, kind: string)
    requires kind !in KindsOf(ms)
    ensures OfKindIn(ms, kind) == 0
  {
    if ms != [] {
      assert ms[|ms| - 1].kind in KindsOf(ms);
      forall k | k in KindsOf(ms[..|ms| - 1]) ensures k in KindsOf(ms) {}
      CountsOfOther(ms[..|ms| - 1], kind);
    }
  }

  lemma {:induction false} VariationsOfOther(ms: seq<Measurement>, key: (nat, nat))
    requires key !in VariationsOf(ms)
    ensures OfVariationIn(ms, key) == 0
  {
    if ms != [] {
      assert (ms[|ms| - 1].group, ms[|ms| - 1].variation) in VariationsOf(ms);
      forall k | k in VariationsOf(ms[..|ms| - 1]) ensures k in VariationsOf(ms) {}
      VariationsOfOther(ms[..|ms| - 1], key);
    }
  }

  lemma {:induction false} SetsGrow(ms: seq<Measurement>, m: Measurement)
    ensures KindsOf(ms + [m]) == KindsOf(ms) + {m.kind}
    ensures VariationsOf(ms + [m]) == VariationsOf(ms) + {(m.group, m.variation)}
  {
    var more := ms + [m];
    assert more[|ms|] == m && forall i :: 0 <= i < |ms| ==> more[i] == ms[i];
    forall k | k in KindsOf(ms) ensures k in KindsOf(more) {
      var i :| 0 <= i < |ms| && ms[i].kind == k;
      assert more[i].kind == k;
    }
    forall k | k in VariationsOf(ms) ensures k in VariationsOf(more) {
      var i :| 0 <= i < |ms| && (ms[i].group, ms[i].variation) == k;
      assert (more[i].group, more[i].variation) == k;
    }
    assert more[|ms|].kind in KindsOf(more) && (more[|ms|].group, more[|ms|].variation) in VariationsOf(more);
  }

  lemma {:induction false} KindTable(c: Capture, m: Measurement)
    requires DetailOk(c)
    ensures var more := c.log.processed + [m];
            TableOk(BumpKey(c.detail.byKind, m.kind), KindsOf(more), k => OfKindIn(more, k))
    ensures KeyTrouble(c.detail.byKind, m.kind) == Some(DimensionLimit)
            <==> m.kind !in c.detail.byKind && |c.detail.byKind| == 256
    ensures KeyTrouble(c.detail.byKind, m.kind) == Some(DimensionLimit) ==> |KindsOf(c.log.processed + [m])| > 256
  {
    var ms, more := c.log.processed, c.log.processed + [m];
    assert more[..|ms|] == ms;
    SetsGrow(ms, m);
    if m.kind !in KindsOf(ms) { CountsOfOther(ms, m.kind); }
    TableStep(c.detail.byKind, KindsOf(ms), k => OfKindIn(ms, k), m.kind, k => OfKindIn(more, k));
  }

  lemma {:induction false} VariationTable(c: Capture, m: Measurement)
    requires DetailOk(c)
    ensures var more := c.log.processed + [m];
            TableOk(BumpKey(c.detail.byVariation, (m.group, m.variation)), VariationsOf(more), k => OfVariationIn(more, k))
    ensures KeyTrouble(c.detail.byVariation, (m.group, m.variation)) == Some(DimensionLimit)
            <==> (m.group, m.variation) !in c.detail.byVariation && |c.detail.byVariation| == 256
    ensures KeyTrouble(c.detail.byVariation, (m.group, m.variation)) == Some(DimensionLimit) ==>
            |VariationsOf(c.log.processed + [m])| > 256
  {
    var ms, more, key := c.log.processed, c.log.processed + [m], (m.group, m.variation);
    assert more[..|ms|] == ms;
    SetsGrow(ms, m);
    if key !in VariationsOf(ms) { VariationsOfOther(ms, key); }
    TableStep(c.detail.byVariation, VariationsOf(ms), k => OfVariationIn(ms, k), key, k => OfVariationIn(more, k));
  }

  lemma {:induction false} Larger<K>(a: set<K>, b: set<K>)
    requires a <= b
    ensures |a| <= |b|
  {
    assert b == a + (b - a);
  }

  lemma {:induction false} CountKeepsDetail(c: Capture, m: Measurement)
    requires DetailOk(c)
    ensures DetailOk(CountReceived(c, m))
  {
    KindTable(c, m);
    VariationTable(c, m);
    SetsGrow(c.log.processed, m);
    Larger(KindsOf(c.log.processed), KindsOf(c.log.processed + [m]));
    Larger(VariationsOf(c.log.processed), VariationsOf(c.log.processed + [m]));
  }

  /** A step that leaves the tables and what was processed alone. */
  predicate SameDetail(c: Capture, t: Capture) {
    && t.detail.byKind == c.detail.byKind && t.detail.byVariation == c.detail.byVariation
    && t.log.processed == c.log.processed && (DimensionLimit in t.reasons <==> DimensionLimit in c.reasons)
  }

  lemma {:induction false} RecordKeepsDetail(c: Capture, m: Measurement, fault: bool)
    ensures SameDetail(c, MatchPoint(c, m)) && SameDetail(c, HashRecord(c, m, fault))
  {
  }

  lemma {:induction false} SameDetailKeeps(c: Capture, t: Capture)
    requires DetailOk(c) && SameDetail(c, t)
    ensures DetailOk(t)
  {
  }

  lemma {:induction false} ProcessKeepsDetail(c: Capture, m: Measurement, fault: bool)
    requires DetailOk(c)
    ensures DetailOk(Process(c, m, fault))
  {
    var d := CountReceived(c, m);
    CountKeepsDetail(c, m);
    RecordKeepsDetail(d, m, fault);
    SameDetailKeeps(d, Process(c, m, fault));
  }

  lemma {:induction false} WorkKeepsDetail(c: Capture, now: nat, fault: bool)
    requires DetailOk(c)
    ensures DetailOk(Work(c, now, fault))
  {
    var e := Expire(c, now);
    SameDetailKeeps(c, e);
    if e.queue != [] {
      var d := e.(queue := e.queue[1..]);
      SameDetailKeeps(c, d);
      ProcessKeepsDetail(d, e.queue[0], fault);
    }
  }

  lemma {:induction false} FinishKeepsDetail(c: Capture, hash: string -> string, fault: bool)
    ensures SameDetail(c, FinalizeSequence(c, hash, fault))
  {
  }

  lemma {:induction false} EndKeepsDetail(c: Capture, now: nat, hash: string -> string, fault: bool)
    ensures SameDetail(c, EndLeave(c, now, hash, fault))
  {
    FinishKeepsDetail(c, hash, fault);
    FinishKeepsDetail(Discard(c, now, DrainTimeout), hash, fault);
    FinishKeepsDetail(EndedAt(c, now), hash, fault);
  }

  lemma {:induction false} AbortKeepsDetail(c: Capture, reason: Reason, now: nat, hash: string -> string, fault: bool)
    requires reason != DimensionLimit
    ensures SameDetail(c, Abort(c, reason, now, hash, fault))
  {
    FinishKeepsDetail(Discard(c, now, reason), hash, fault);
  }

  lemma {:induction false} OfferKeepsDetail(c: Capture, m: Measurement, now: nat)
    ensures SameDetail(c, Offer(c, m, now))
  {
  }

  lemma {:induction false} FragmentKeepsDetail(c: Capture, source: Source, now: nat)
    ensures SameDetail(c, Fragment(c, source, now)) && SameDetail(c, Expire(c, now))
  {
  }

  lemma {:induction false} EndEnterKeepsDetail(c: Capture, id: CaptureId, now: nat)
    ensures SameDetail(c, EndEnter(c, id, now))
  {
  }

  lemma {:induction false} OtherStepKeepsDetail(w: World, e: Event, hash: string -> string)
    requires GoodEvent(e) && !e.BeginCall? && !e.WorkerTurn?
    ensures SameDetail(w.c, Step(w, e, hash).c)
  {
    match e
    case ProgressCall(id, now) => FragmentKeepsDetail(w.c, Solicited, now);
    case EndCall(id, now) => EndEnterKeepsDetail(w.c, id, now);
    case EndReturn(now, fault) => EndKeepsDetail(w.c, now, hash, fault);
    case AbortCall(reason, now, fault) => AbortKeepsDetail(w.c, reason, now, hash, fault);
    case FragmentSeen(source, now) => FragmentKeepsDetail(w.c, source, now);
    case ObjectSeen(m, now) => OfferKeepsDetail(w.c, m, now);
  }

  lemma {:induction false} FreshDetail(n: nat)
    ensures DetailOk(Reset(n))
  {
    assert KindsOf([]) == {} && VariationsOf([]) == {};
  }

  lemma {:induction false} BeginKeepsDetail(c: Capture, session: nat, config: Config, now: nat, ready: bool)
    requires DetailOk(c)
    ensures DetailOk(Begin(c, session, config, now, ready))
  {
    FreshDetail(Expire(c, now).nextNumber + 1);
  }

  lemma {:induction false} StepKeepsDetail(w: World, e: Event, hash: string -> string)
    requires DetailOk(w.c) && GoodEvent(e)
    ensures DetailOk(Step(w, e, hash).c)
  {
    if e.BeginCall? {
      BeginKeepsDetail(w.c, e.session, e.config, e.now, e.digestReady);
    } else if e.WorkerTurn? {
      WorkKeepsDetail(w.c, e.now, e.fault);
    } else {
      OtherStepKeepsDetail(w, e, hash);
      SameDetailKeeps(w.c, Step(w, e, hash).c);
    }
  }

  lemma {:induction false} RunKeepsDetail(events: seq<Event>, hash: string -> string)
    requires GoodEvents(events)
    ensures DetailOk(Run(events, hash).c)
  {
    if events == [] {
      FreshDetail(0);
    } else {
      var head := events[..|events| - 1];
      assert GoodEvents(head);
      RunKeepsDetail(head, hash);
      StepKeepsDetail(Run(head, hash), events[|events| - 1], hash);
    }
  }

  /**
   * The capture reports a dimension limit exactly when it processed more than 256 kinds or more than
   * 256 variations; each number it gives for a kind or a variation is the number it processed.
   */
  lemma {:induction false} DimensionsCounted(events: seq<Event>, hash: string -> string)
    requires GoodEvents(events)
    ensures var c := Run(events, hash).c;
            && (DimensionLimit in c.reasons <==> |KindsOf(c.log.processed)| > 256 || |VariationsOf(c.log.processed)| > 256)
            && (forall k :: k in c.detail.byKind ==> c.detail.byKind[k] == Capped(OfKindIn(c.log.processed, k)))
            && (forall k :: k in c.detail.byVariation ==>
                  c.detail.byVariation[k] == Capped(OfVariationIn(c.log.processed, k)))
            && (DimensionLimit !in c.reasons ==>
                  c.detail.byKind.Keys == KindsOf(c.log.processed)
                  && c.detail.byVariation.Keys == VariationsOf(c.log.processed))
  {
    RunKeepsDetail(events, hash);
    var c := Run(events, hash).c;
    KeysBound(c.detail.byKind, KindsOf(c.log.processed));
    KeysBound(c.detail.byVariation, VariationsOf(c.log.processed));
  }

  // ------------------------------------------------------------- mismatch samples

  function StraysIn(ranges: seq<PointRange>, ms: seq<Measurement>): seq<Sample> {
    if ms == [] then []
    else
      var last := ms[|ms| - 1];
      StraysIn(ranges, ms[..|ms| - 1]) + (if Covered(ranges, last) then [] else [UnexpectedPoint(last)])
  }

  function First(samples: seq<Sample>, limit: nat): seq<Sample> {
    if |samples| <= limit then samples else samples[..limit]
  }

  /** The samples a capture should hold: its first strays, or the one difference of its sequence. */
  function SamplesOf(c: Capture): seq<Sample> {
    match c.config.mode
    case Observation => []
    case StaticSet => First(StraysIn(c.config.ranges, c.log.processed), c.config.sampleLimit)
    case EventSequence =>
      if c.sequence.sha.Some? && c.sequence.matched == Some(false) && c.config.manifest.Some?
      then First([SequenceDifference(c.config.manifest.value.eventTotal, c.counts.received,
                                     Lower(c.config.manifest.value.sha256), c.sequence.sha.value)], c.config.sampleLimit)
      else []
  }

  ghost predicate Sampled(c: Capture) {
    c.detail.samples == SamplesOf(c)
  }

  lemma {:induction false} StraysSnoc(ranges: seq<PointRange>, ms: seq<Measurement>, m: Measurement)
    ensures StraysIn(ranges, ms + [m]) == StraysIn(ranges, ms) + (if Covered(ranges, m) then [] else [UnexpectedPoint(m)])
  {
    assert (ms + [m])[..|ms|] == ms;
  }

  lemma {:induction false} StaticWorkSamples(e: Capture)
    requires Sampled(e) && e.queue != [] && e.config.mode == StaticSet
    ensures Sampled(MatchPoint(Received(e), e.queue[0]))
  {
    StraysSnoc(e.config.ranges, e.log.processed, e.queue[0]);
  }

  lemma {:induction false} OtherWorkSamples(e: Capture, fault: bool, hash: string -> string)
    requires Sampled(e) && Closed(e) && Hashed(e, hash) && e.queue != [] && e.config.mode != StaticSet
    ensures Sampled(Received(e)) && Sampled(HashRecord(Received(e), e.queue[0], fault))
  {
    assert e.config.mode == EventSequence ==> e.sequence.matched.None? && e.sequence.sha.None?;
  }

  lemma {:induction false} WorkKeepsSamples(c: Capture, now: nat, fault: bool, hash: string -> string)
    requires Sampled(c) && Closed(c) && Hashed(c, hash)
    ensures Sampled(Work(c, now, fault))
  {
    var e := Expire(c, now);
    ExpireKeepsSamples(c, now, hash);
    if e.queue != [] {
      if e.config.mode == StaticSet { StaticWorkSamples(e); } else { OtherWorkSamples(e, fault, hash); }
      assert Work(c, now, fault) == Process(e.(queue := e.queue[1..]), e.queue[0], fault);
    }
  }

  lemma {:induction false} ExpireKeepsSamples(c: Capture, now: nat, hash: string -> string)
    requires Sampled(c) && Closed(c) && Hashed(c, hash)
    ensures Sampled(Expire(c, now)) && Closed(Expire(c, now)) && Hashed(Expire(c, now), hash)
  {
  }

  /** A capture whose samples are about the same things. */
  predicate SameSampled(c: Capture, t: Capture) {
    && t.detail.samples == c.detail.samples && t.config == c.config && t.log.processed == c.log.processed
    && t.sequence == c.sequence && t.counts.received == c.counts.received
  }

  lemma {:induction false} SameSampledKeeps(c: Capture, t: Capture)
    requires Sampled(c) && SameSampled(c, t)
    ensures Sampled(t)
  {
  }

  lemma {:induction false} FinishKeepsSamples(c: Capture, hash: string -> string, fault: bool)
    requires Sampled(c) && Hashed(c, hash)
    ensures Sampled(FinalizeSequence(c, hash, fault))
  {
  }

  lemma {:induction false} EndKeepsSamples(c: Capture, now: nat, hash: string -> string, fault: bool)
    requires Sampled(c) && Inv(c, hash) && c.status != Idle && c.status != Active
    ensures Sampled(EndLeave(c, now, hash, fault))
  {
    if c.queue != [] {
      var d := Discard(c, now, DrainTimeout);
      DiscardEnds(c, now, DrainTimeout, hash);
      SameSampledKeeps(c, d);
      FinishKeepsSamples(d, hash, fault);
    } else if c.status == Finalizing {
      FinishKeepsSamples(c, hash, fault);
      SameSampledKeeps(FinalizeSequence(c, hash, fault), EndLeave(c, now, hash, fault));
    } else if c.status != Finalized {
      SameSampledKeeps(c, EndedAt(c, now));
      FinishKeepsSamples(EndedAt(c, now), hash, fault);
    }
  }

  lemma {:induction false} AbortKeepsSamples(c: Capture, reason: Reason, now: nat, hash: string -> string, fault: bool)
    requires Sampled(c) && Inv(c, hash) && (reason == SessionDisconnected || reason == HostShutdown)
    ensures Sampled(Abort(c, reason, now, hash, fault))
  {
    if Abortable(c) {
      var d := Discard(c, now, reason);
      DiscardEnds(c, now, reason, hash);
      SameSampledKeeps(c, d);
      FinishKeepsSamples(d, hash, fault);
    }
  }

  lemma {:induction false} CallKeepsSamples(w: World, e: Event, hash: string -> string)
    requires Sampled(w.c) && !e.WorkerTurn? && !e.EndReturn? && !e.AbortCall? && !e.BeginCall?
    ensures SameSampled(w.c, Step(w, e, hash).c)
  {
    match e
    case ObjectSeen(m, now) => OfferKeepsSamples(w.c, m, now);
    case _ =>
  }

  lemma {:induction false} OfferKeepsSamples(c: Capture, m: Measurement, now: nat)
    ensures SameSampled(c, Offer(c, m, now))
  {
  }

  lemma {:induction false} BeginKeepsSamples(c: Capture, session: nat, config: Config, now: nat, ready: bool)
    requires Sampled(c)
    ensures Sampled(Begin(c, session, config, now, ready))
  {
    assert Sampled(Reset(Expire(c, now).nextNumber + 1));
  }

  lemma {:induction false} StepKeepsSamples(w: World, e: Event, hash: string -> string)
    requires Sampled(w.c) && Inv(w.c, hash) && Placed(w) && GoodEvent(e)
    ensures Sampled(Step(w, e, hash).c)
  {
    if e.BeginCall? { BeginKeepsSamples(w.c, e.session, e.config, e.now, e.digestReady); }
    else if e.WorkerTurn? { WorkKeepsSamples(w.c, e.now, e.fault, hash); }
    else if e.EndReturn? { if w.waiting { EndKeepsSamples(w.c, e.now, hash, e.finishFault); } }
    else if e.AbortCall? { AbortKeepsSamples(w.c, e.reason, e.now, hash, e.finishFault); }
    else {
      CallKeepsSamples(w, e, hash);
      SameSampledKeeps(w.c, Step(w, e, hash).c);
    }
  }

  /**
   * The samples of a static capture are its first unexpected measurements, those of an event capture
   * the one difference to its manifest, up to the configured number.
   */
  lemma {:induction false} SamplesAreFirstMismatches(events: seq<Event>, hash: string -> string)
    requires GoodEvents(events)
    ensures var c := Run(events, hash).c; c.detail.samples == SamplesOf(c)
  {
    if events != [] {
      var head := events[..|events| - 1];
      assert GoodEvents(head);
      RunKeeps(head, hash);
      SamplesAreFirstMismatches(head, hash);
      StepKeepsSamples(Run(head, hash), events[|events| - 1], hash);
    }
  }

  // ------------------------------------------------------------- counters

  /** After `n` steps no counter passes `n`, so none has stuck before 2^64 of them. */
  ghost predicate Small(c: Capture, n: nat) {
    && c.counts.offered <= n && c.counts.received <= n && c.counts.fragments <= n && c.counts.overflow <= n
    && c.cover.unique <= n && c.cover.duplicates <= n && c.cover.unmatched <= n
    && (forall k :: k in c.detail.byKind ==> c.detail.byKind[k] <= n)
    && (forall k :: k in c.detail.byVariation ==> c.detail.byVariation[k] <= n)
    && (n <= MAX64 ==> CounterOverflow !in c.reasons)
  }

  lemma {:induction false} CountIsSmall(c: Capture, m: Measurement, n: nat)
    requires Small(c, n)
    ensures var d := CountReceived(c, m);
            && Small(d, n + 1) && d.cover == c.cover && d.counts.overflow == c.counts.overflow
  {
  }

  lemma {:induction false} MatchIsSmall(d: Capture, m: Measurement, n: nat)
    requires Small(d, n + 1) && d.cover.unique <= n && d.cover.duplicates <= n && d.cover.unmatched <= n
    ensures Small(MatchPoint(d, m), n + 1)
  {
  }

  lemma {:induction false} HashIsSmall(d: Capture, m: Measurement, fault: bool, n: nat)
    requires Small(d, n + 1) && d.counts.overflow <= n
    ensures Small(HashRecord(d, m, fault), n + 1)
  {
  }

  lemma {:induction false} WorkIsSmall(c: Capture, now: nat, fault: bool, n: nat)
    requires Small(c, n)
    ensures Small(Work(c, now, fault), n + 1)
  {
    var e := Expire(c, now);
    if e.queue != [] {
      var d := e.(queue := e.queue[1..]);
      CountIsSmall(d, e.queue[0], n);
      MatchIsSmall(CountReceived(d, e.queue[0]), e.queue[0], n);
      HashIsSmall(CountReceived(d, e.queue[0]), e.queue[0], fault, n);
    }
  }

  /** All counters but the discarded ones are the same, and none has stuck meanwhile. */
  predicate SameCounters(c: Capture, t: Capture) {
    && t.counts == c.counts.(discarded := t.counts.discarded) && t.cover == c.cover
    && t.detail.byKind == c.detail.byKind && t.detail.byVariation == c.detail.byVariation
    && (CounterOverflow in t.reasons <==> CounterOverflow in c.reasons)
  }

  lemma {:induction false} SameIsSmall(c: Capture, t: Capture, n: nat)
    requires Small(c, n) && SameCounters(c, t)
    ensures Small(t, n)
  {
  }

  lemma {:induction false} FinishKeepsCounters(c: Capture, hash: string -> string, fault: bool)
    ensures SameCounters(c, FinalizeSequence(c, hash, fault))
  {
  }

  lemma {:induction false} UndrainedKeepsCounters(c: Capture, now: nat, hash: string -> string, fault: bool)
    requires c.queue != []
    ensures SameCounters(c, EndLeave(c, now, hash, fault))
  {
    FinishKeepsCounters(Discard(c, now, DrainTimeout), hash, fault);
  }

  lemma {:induction false} DrainedKeepsCounters(c: Capture, now: nat, hash: string -> string, fault: bool)
    requires c.queue == []
    ensures SameCounters(c, EndLeave(c, now, hash, fault))
  {
    FinishKeepsCounters(c, hash, fault);
    FinishKeepsCounters(EndedAt(c, now), hash, fault);
  }

  lemma {:induction false} EndKeepsCounters(c: Capture, now: nat, hash: string -> string, fault: bool)
    ensures SameCounters(c, EndLeave(c, now, hash, fault))
  {
    if c.queue != [] {
      UndrainedKeepsCounters(c, now, hash, fault);
    } else {
      DrainedKeepsCounters(c, now, hash, fault);
    }
  }

  lemma {:induction false} AbortKeepsCounters(c: Capture, reason: Reason, now: nat, hash: string -> string, fault: bool)
    requires reason != CounterOverflow
    ensures SameCounters(c, Abort(c, reason, now, hash, fault))
  {
    FinishKeepsCounters(Discard(c, now, reason), hash, fault);
  }

  lemma {:induction false} OfferIsSmall(c: Capture, m: Measurement, now: nat, n: nat)
    requires Small(c, n)
    ensures Small(Offer(c, m, now), n + 1)
  {
  }

  lemma {:induction false} StepIsSmall(w: World, e: Event, hash: string -> string, n: nat)
    requires Small(w.c, n) && GoodEvent(e)
    ensures Small(Step(w, e, hash).c, n + 1)
  {
    match e
    case ObjectSeen(m, now) => OfferIsSmall(w.c, m, now, n);
    case WorkerTurn(now, fault) => WorkIsSmall(w.c, now, fault, n);
    case EndReturn(now, fault) =>
      EndKeepsCounters(w.c, now, hash, fault);
      SameIsSmall(w.c, EndLeave(w.c, now, hash, fault), n);
    case AbortCall(reason, now, fault) =>
      AbortKeepsCounters(w.c, reason, now, hash, fault);
      SameIsSmall(w.c, Abort(w.c, reason, now, hash, fault), n);
    case _ =>
  }

  /** No counter sticks in a run of fewer than 2^64 steps. */
  lemma {:induction false} CountersDoNotStick(events: seq<Event>, hash: string -> string)
    requires GoodEvents(events)
    ensures Small(Run(events, hash).c, |events|)
    ensures |events| <= MAX64 ==> CounterOverflow !in Run(events, hash).c.reasons
  {
    if events != [] {
      var head := events[..|events| - 1];
      assert GoodEvents(head);
      CountersDoNotStick(head, hash);
      StepIsSmall(Run(head, hash), events[|events| - 1], hash, |head|);
    }
  }

  // ------------------------------------------------------------- processing failures

  lemma {:induction false} WorkWithoutFault(c: Capture, now: nat, hash: string -> string)
    requires Inv(c, hash)
    ensures Work(c, now, false).log.faults == c.log.faults
  {
    assert c.queue != [] && c.config.mode == EventSequence ==> c.sequence.digest.Some?;
  }

  lemma {:induction false} EndAddsNoFault(c: Capture, now: nat, hash: string -> string, fault: bool)
    ensures EndLeave(c, now, hash, fault).log.faults == c.log.faults
  {
  }

  lemma {:induction false} AbortAddsNoFault(c: Capture, now: nat, hash: string -> string, fault: bool, reason: Reason)
    ensures Abort(c, reason, now, hash, fault).log.faults == c.log.faults
  {
  }

  lemma {:induction false} OfferAddsNoFault(c: Capture, m: Measurement, source: Source, now: nat)
    ensures Offer(c, m, now).log.faults == c.log.faults && Fragment(c, source, now).log.faults == c.log.faults
  {
  }

  lemma {:induction false} OtherStepAddsNoFault(w: World, e: Event, hash: string -> string)
    requires !e.WorkerTurn?
    ensures Step(w, e, hash).c.log.faults == w.c.log.faults || Step(w, e, hash).c.log.faults == 0
  {
    match e
    case EndReturn(now, fault) => EndAddsNoFault(w.c, now, hash, fault);
    case AbortCall(reason, now, fault) => AbortAddsNoFault(w.c, now, hash, fault, reason);
    case ObjectSeen(m, now) => OfferAddsNoFault(w.c, m, m.source, now);
    case _ =>
  }

  lemma {:induction false} StepWithoutFault(w: World, e: Event, hash: string -> string)
    requires Inv(w.c, hash) && w.c.log.faults == 0 && (e.WorkerTurn? ==> !e.fault)
    ensures Step(w, e, hash).c.log.faults == 0
  {
    if e.WorkerTurn? { WorkWithoutFault(w.c, e.now, hash); } else { OtherStepAddsNoFault(w, e, hash); }
  }

  /** Every record is hashed unless the provider fails while one is. */
  lemma {:induction false} NoFaultNoProcessingFailure(events: seq<Event>, hash: string -> string)
    requires GoodEvents(events) && forall i :: 0 <= i < |events| ==> !(events[i].WorkerTurn? && events[i].fault)
    ensures Run(events, hash).c.log.faults == 0 && ProcessingFailure !in Run(events, hash).c.reasons
  {
    if events != [] {
      var head := events[..|events| - 1];
      assert GoodEvents(head);
      RunKeeps(head, hash);
      NoFaultNoProcessingFailure(head, hash);
      StepWithoutFault(Run(head, hash), events[|events| - 1], hash);
    }
    RunKeeps(events, hash);
  }

  // ------------------------------------------------------------- the verdict of every mode

  /** No bounded store of the capture overflowed, and the digest provider worked. */
  predicate Unharmed(c: Capture) {
    && QueueOverflow !in c.reasons && ProcessingFailure !in c.reasons && DimensionLimit !in c.reasons
    && CounterOverflow !in c.reasons && DigestFailure !in c.reasons
  }

  /** What the mode asks of the measurements. */
  ghost predicate Truth(c: Capture, window: seq<Measurement>, hash: string -> string) {
    match c.config.mode
    case StaticSet => ExactlyOnce(c.config.ranges, window)
    case EventSequence => c.config.manifest.Some? && Describes(c.config.manifest.value, window, hash)
    case Observation => true
  }

  lemma {:induction false} FinalReasons(c: Capture, hash: string -> string, q: Reason)
    requires Lifecycle(c) && c.status == Finalized && Unharmed(c)
    requires SequenceMismatch !in c.reasons && StaticSetMismatch !in c.reasons
    ensures q !in c.reasons
  {
  }

  lemma {:induction false} NothingWrong(c: Capture, hash: string -> string)
    requires Lifecycle(c) && c.status == Finalized && Unharmed(c)
    requires SequenceMismatch !in c.reasons && StaticSetMismatch !in c.reasons
    ensures Valid(c)
  {
    if c.reasons != [] { FinalReasons(c, hash, c.reasons[0]); }
  }

  lemma {:induction false} SequenceDecides(c: Capture, hash: string -> string)
    requires Inv(c, hash) && c.status == Finalized && c.config.mode == EventSequence && Unharmed(c)
    ensures StaticSetMismatch !in c.reasons && c.config.manifest.Some?
    ensures SequenceMismatch !in c.reasons <==> Describes(c.config.manifest.value, c.log.processed, hash)
  {
  }

  /**
   * The verdict of every mode, both ways: a finalized capture is valid exactly when nothing of it
   * overflowed or failed and the measurements offered in its window are what its mode asks for.
   */
  lemma {:induction false} VerdictOfEveryMode(events: seq<Event>, hash: string -> string)
    requires GoodEvents(events) && Run(events, hash).c.status == Finalized
    ensures var c := Run(events, hash).c;
            Valid(c) <==> Unharmed(c) && Truth(c, Window(events, hash), hash)
  {
    var c := Run(events, hash).c;
    RunKeeps(events, hash);
    LogIsWindow(events, hash);
    if Unharmed(c) {
      EndedCaptureProcessedAll(c, hash);
      match c.config.mode
      case StaticSet => StaticVerdict(events, hash);
      case EventSequence =>
        SequenceDecides(c, hash);
        if SequenceMismatch !in c.reasons { NothingWrong(c, hash); }
      case Observation => NothingWrong(c, hash);
    }
  }

  /**
   * Within the bounds the source states, the truth alone decides: fewer than 2^64 steps, no full
   * queue met, at most 256 kinds and variations, and no provider failure.
   */
  lemma {:induction false} WithinBoundsTruthDecides(events: seq<Event>, hash: string -> string)
    requires GoodEvents(events) && Run(events, hash).c.status == Finalized && |events| <= MAX64
    requires forall i :: 0 <= i < |events| ==> !FinishFails(events[i]) && !(events[i].WorkerTurn? && events[i].fault)
    requires forall j: nat :: !MetFullQueue(events, j, hash)
    requires var ms := Run(events, hash).c.log.processed; |KindsOf(ms)| <= 256 && |VariationsOf(ms)| <= 256
    ensures var c := Run(events, hash).c;
            Valid(c) <==> Truth(c, Window(events, hash), hash)
  {
    VerdictOfEveryMode(events, hash);
    NoFaultNoDigestFailure(events, hash);
    NoFaultNoProcessingFailure(events, hash);
    CountersDoNotStick(events, hash);
    DimensionsCounted(events, hash);
    if QueueOverflow in Run(events, hash).c.reasons { LossMeansFullQueue(events, hash); }
  }
}
