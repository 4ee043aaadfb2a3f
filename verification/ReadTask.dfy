// A read task: callbacks on the manager's thread decide one API call on another thread.
//
// Every section under a mutex is one step.  The manager's thread runs its callbacks one after
// the other; OnReceiveIIN is three of its steps (record, look up the gate, release the
// operation), and any step of the API thread or of a cancelling thread may come in between.

module ReadTask {
  import opened Common

  const IIN_CAPACITY: nat := 1024
  const FRAGMENT_CAPACITY: nat := 4096

  datatype Iin = Iin(lsb: nat, msb: nat)

  // ------------------------------------------------------- the IIN store

  datatype Observation = Observation(sequence: nat, value: Iin)

  /** The unbounded log, numbered from 1. */
  function Numbered(log: seq<Iin>): (all: seq<Observation>)
    ensures |all| == |log|
  {
    seq(|log|, i requires 0 <= i < |log| => Observation(i + 1, log[i]))
  }

  function Evicted(log: seq<Iin>): nat {
    if |log| > IIN_CAPACITY then |log| - IIN_CAPACITY else 0
  }

  /** What the store still knows of the log after `start`, and how much of that it has lost. */
  function Known(log: seq<Iin>, start: nat): seq<Observation> {
    var from := if start > Evicted(log) then start else Evicted(log);
    if from >= |log| then [] else Numbered(log)[from..]
  }

  function Lost(log: seq<Iin>, start: nat): nat {
    if Evicted(log) > start then Evicted(log) - start else 0
  }

  class IinStore {
    var observations: seq<Observation>
    var lastSequence: nat
    var dropped: nat
    ghost var log: seq<Iin>

    ghost predicate Valid()
      reads this
    {
      lastSequence == |log| && dropped == Evicted(log) && observations == Numbered(log)[dropped..]
    }

    constructor ()
      ensures Valid() && log == []
    {
      observations, lastSequence, dropped, log := [], 0, 0, [];
    }

    method Record(value: Iin)
      requires Valid()
      modifies this
      ensures Valid() && log == old(log) + [value]
    {
      ghost var before := Numbered(log);
      if |observations| == IIN_CAPACITY {
        observations := observations[1..];
        dropped := dropped + 1;
      }
      lastSequence := lastSequence + 1;
      observations := observations + [Observation(lastSequence, value)];
      log := log + [value];
      assert Numbered(log)[..|before|] == before;
    }

    /** `after`: exactly the part of the unbounded log that is left, and the count of what is not. */
    method After(sequence: nat) returns (window: seq<Observation>, droppedTotal: nat, windowDropped: nat)
      requires Valid()
      ensures window == Known(log, sequence) && droppedTotal == Evicted(log)
      ensures sequence <= |log| ==> windowDropped == Lost(log, sequence)
    {
      window := [];
      for i := 0 to |observations|
        invariant window == if dropped + i <= sequence then [] else
          Numbered(log)[(if sequence > dropped then sequence else dropped)..dropped + i]
      {
        if observations[i].sequence > sequence {
          window := window + [observations[i]];
        }
      }
      droppedTotal := dropped;
      var windowTotal := if lastSequence >= sequence then lastSequence - sequence else 0;
      windowDropped := if windowTotal > |window| then windowTotal - |window| else 0;
    }
  }

  /** Nothing of the window was lost exactly when the window is the whole log since `start`. */
  lemma {:induction false} CompleteWindow(log: seq<Iin>, start: nat)
    requires start <= |log|
    ensures Lost(log, start) == 0 <==> Known(log, start) == Numbered(log)[start..]
    ensures |Known(log, start)| + Lost(log, start) == |log| - start
    ensures Lost(log, start) == 0 <==> |log| <= start + 1024
  {
    if Lost(log, start) > 0 { assert |Known(log, start)| < |log| - start; }
  }

  // ------------------------------------------------------- the operation

  datatype Outcome = ResponseTimeout | QueueOverflow | Success | TaskFailed

  datatype Totals = Totals(
    received: nat, stored: nat, overflow: nat, fragments: nat, fragmentsStored: nat, fragmentOverflow: nat)

  /**
   * `start` is the last IIN number at submission.  No step reads `awaits`: the number the next
   * IIN had when OnComplete was called, which is the IIN of the operation's own response.
   */
  datatype Op = Op(
    start: nat, maxMeasurements: nat, detail: bool, submitted: bool, started: bool, destroyed: bool, done: bool,
    waitTimedOut: bool, pending: Option<Completion>, completion: Option<Completion>, totals: Totals,
    awaits: Option<nat>)

  function NewOp(start: nat, maxMeasurements: nat, detail: bool): Op {
    Op(start, maxMeasurements, detail, false, false, false, false, false, None, None, Totals(0, 0, 0, 0, 0, 0), None)
  }

  function Finalize(o: Op, c: Completion): Op {
    o.(completion := Some(c), done := true)
  }

  function Complete(o: Op, c: Completion, next: nat): Op {
    if o.done then o
    else
      var p := o.(pending := Some(c), awaits := Some(next));
      if c == SUCCESS || c == FAILURE_BAD_RESPONSE then p else Finalize(p, c)
  }

  function Release(o: Op): Op {
    if !o.done && o.pending.Some? then Finalize(o, o.pending.value) else o
  }

  function Destroy(o: Op): Op {
    var d := o.(destroyed := true);
    if !o.done && o.pending.None? then Finalize(d, FAILURE_NO_COMMS) else d
  }

  function CancelOp(o: Op): Op {
    var d := o.(destroyed := true);
    if !o.done then Finalize(d.(pending := None), FAILURE_NO_COMMS) else d
  }

  function LeaveWait(o: Op): Op {
    o.(waitTimedOut := o.waitTimedOut || !o.done)
  }

  function CountFragment(o: Op): Op {
    o.(totals := if o.totals.fragmentsStored < FRAGMENT_CAPACITY
                 then o.totals.(fragments := o.totals.fragments + 1, fragmentsStored := o.totals.fragmentsStored + 1)
                 else o.totals.(fragments := o.totals.fragments + 1,
                                fragmentOverflow := o.totals.fragmentOverflow + 1))
  }

  function CountObject(o: Op): Op {
    var t := o.totals.(received := o.totals.received + 1);
    o.(totals := if t.received > o.maxMeasurements then t.(overflow := t.overflow + 1)
                 else if o.detail then t.(stored := t.stored + 1) else t)
  }

  function OutcomeOf(o: Op, windowDropped: nat): Outcome {
    if o.waitTimedOut || !o.done || o.completion.None? then ResponseTimeout
    else if o.totals.overflow > 0 || o.totals.fragmentOverflow > 0 || windowDropped > 0 then QueueOverflow
    else if o.completion == Some(SUCCESS) then Success
    else if o.completion == Some(FAILURE_RESPONSE_TIMEOUT) then ResponseTimeout
    else TaskFailed
  }

  class ReadOperation {
    const start: nat
    const maxMeasurements: nat
    const detail: bool
    var submitted: bool
    var started: bool
    var destroyed: bool
    var done: bool
    var waitTimedOut: bool
    var pending: Option<Completion>
    var completion: Option<Completion>
    var totals: Totals
    ghost var awaits: Option<nat>

    ghost function Abs(): Op
      reads this
    {
      Op(start, maxMeasurements, detail, submitted, started, destroyed, done, waitTimedOut, pending, completion,
         totals, awaits)
    }

    constructor (start: nat, maxMeasurements: nat, detail: bool)
      ensures Abs() == NewOp(start, maxMeasurements, detail)
    {
      this.start, this.maxMeasurements, this.detail := start, maxMeasurements, detail;
      submitted, started, destroyed, done, waitTimedOut := false, false, false, false, false;
      pending, completion, totals, awaits := None, None, Totals(0, 0, 0, 0, 0, 0), None;
    }

    method FinalizeLocked(c: Completion)
      modifies `completion, `done
      ensures Abs() == Finalize(old(Abs()), c)
    {
      completion := Some(c);
      done := true;
    }

    method MarkComplete(c: Completion, ghost next: nat)
      modifies `pending, `completion, `done, `awaits
      ensures Abs() == Complete(old(Abs()), c, next)
    {
      if done {
        return;
      }
      pending := Some(c);
      awaits := Some(next);
      if c != SUCCESS && c != FAILURE_BAD_RESPONSE {
        FinalizeLocked(c);
      }
    }

    method FinalizeResponseAfterIin()
      modifies `completion, `done
      ensures Abs() == Release(old(Abs()))
    {
      if !done && pending.Some? {
        FinalizeLocked(pending.value);
      }
    }

    method MarkDestroyed()
      modifies `destroyed, `completion, `done
      ensures Abs() == Destroy(old(Abs()))
    {
      destroyed := true;
      if !done && pending.None? {
        FinalizeLocked(FAILURE_NO_COMMS);
      }
    }

    method Cancel()
      modifies `destroyed, `pending, `completion, `done
      ensures Abs() == CancelOp(old(Abs()))
    {
      destroyed := true;
      if !done {
        pending := None;
        FinalizeLocked(FAILURE_NO_COMMS);
      }
    }

    method BeginFragment()
      modifies `totals
      ensures Abs() == CountFragment(old(Abs()))
    {
      totals := totals.(fragments := totals.fragments + 1);
      if totals.fragmentsStored >= FRAGMENT_CAPACITY {
        totals := totals.(fragmentOverflow := totals.fragmentOverflow + 1);
        return;
      }
      totals := totals.(fragmentsStored := totals.fragmentsStored + 1);
    }

    method Record()
      modifies `totals
      ensures Abs() == CountObject(old(Abs()))
    {
      totals := totals.(received := totals.received + 1);
      if totals.received > maxMeasurements {
        totals := totals.(overflow := totals.overflow + 1);
        return;
      }
      if !detail {
        return;
      }
      totals := totals.(stored := totals.stored + 1);
    }

    /** The end of `wait_for_completion`: the deadline's verdict is frozen with the mutex held. */
    method LeaveWaitForCompletion()
      modifies `waitTimedOut
      ensures Abs() == LeaveWait(old(Abs()))
    {
      var completed := done;
      waitTimedOut := waitTimedOut || !completed;
    }

    method GetOutcome(windowDropped: nat) returns (outcome: Outcome)
      ensures outcome == OutcomeOf(Abs(), windowDropped)
    {
      if waitTimedOut || !done || completion.None? {
        return ResponseTimeout;
      }
      if totals.overflow > 0 || totals.fragmentOverflow > 0 || windowDropped > 0 {
        return QueueOverflow;
      }
      if completion.value == SUCCESS {
        return Success;
      }
      outcome := if completion.value == FAILURE_RESPONSE_TIMEOUT then ResponseTimeout else TaskFailed;
    }
  }

  // ------------------------------------------------------- all the threads

  /** Where the manager's thread is inside OnReceiveIIN. */
  datatype Manager = Between | Recorded | Holding(op: Option<nat>)

  datatype Api =
    | Free
    | Prepared(id: nat)
    | Armed(id: nat)
    | Waiting(id: nat)
    | Latched(id: nat)
    | Collected(id: nat, at: nat)
    | Reported(id: nat)
    | Thrown(id: nat)
    | ClearingActive(id: nat)
    | ClearingGate(id: nat)

  datatype Canceller = Calm | Grabbed(id: nat) | Cancelled(id: nat)

  /** What an API call returned; the window was collected when the log had `at` entries. */
  datatype Result = Result(id: nat, outcome: Outcome, at: nat, windowDropped: nat, totals: Totals)

  datatype State = State(
    log: seq<Iin>, ops: seq<Op>, active: Option<nat>, gate: Option<nat>, manager: Manager, api: Api,
    canceller: Canceller, results: seq<Result>)

  const START := State([], [], None, None, Between, Free, Calm, [])

  datatype Event =
    | Execute(maxMeasurements: nat, detail: bool)
    | SetGate | Submit | SubmitThrows | WaitReturns | Collect | Report | CheckDone | HandleThrow
    | ClearActive | ClearGate
    | CancelGrabs | CancelFires | CancelClears
    | IinArrives(value: Iin) | GateLooksUp | GateReleases
    | OnStart(id: nat) | OnComplete(id: nat, c: Completion) | OnDestroyed(id: nat)
    | OnFragment(id: nat) | OnObject(id: nat)

  function With(s: State, id: nat, o: Op): State
    requires id < |s.ops|
  {
    s.(ops := s.ops[id := o])
  }

  /** Ids always name existing operations. */
  predicate Named(s: State) {
    && (s.active.Some? ==> s.active.value < |s.ops|)
    && (s.gate.Some? ==> s.gate.value < |s.ops|)
    && (s.manager.Holding? && s.manager.op.Some? ==> s.manager.op.value < |s.ops|)
    && (!s.api.Free? ==> s.api.id < |s.ops|)
    && (!s.canceller.Calm? ==> s.canceller.id < |s.ops|)
  }

  function ApiStep(s: State, e: Event): (t: State)
    requires Named(s)
    ensures Named(t) && s.log <= t.log && |s.ops| <= |t.ops|
  {
    match s.api
    case Free =>
      if !e.Execute? || (s.active.Some? && !s.ops[s.active.value].done) then s
      else s.(ops := s.ops + [NewOp(|s.log|, e.maxMeasurements, e.detail)], active := Some(|s.ops|),
              api := Prepared(|s.ops|))
    case Prepared(id) => if e.SetGate? then s.(gate := Some(id), api := Armed(id)) else s
    case Armed(id) =>
      if e.Submit? then With(s, id, s.ops[id].(submitted := true)).(api := Waiting(id))
      else if e.SubmitThrows? then With(s, id, s.ops[id].(submitted := true)).(api := Thrown(id))
      else s
    case Waiting(id) => if e.WaitReturns? then With(s, id, LeaveWait(s.ops[id])).(api := Latched(id)) else s
    case Latched(id) => if e.Collect? then s.(api := Collected(id, |s.log|)) else s
    case Collected(id, at) =>
      if !e.Report? || at > |s.log| then s
      else
        var lost := Lost(s.log[..at], s.ops[id].start);
        s.(results := s.results + [Result(id, OutcomeOf(s.ops[id], lost), at, lost, s.ops[id].totals)],
           api := Reported(id))
    case Reported(id) => if !e.CheckDone? then s else s.(api := if s.ops[id].done then ClearingActive(id) else Free)
    case Thrown(id) => if e.HandleThrow? then With(s, id, CancelOp(s.ops[id])).(api := ClearingActive(id)) else s
    case ClearingActive(id) =>
      if e.ClearActive? then s.(active := if s.active == Some(id) then None else s.active, api := ClearingGate(id))
      else s
    case ClearingGate(id) =>
      if e.ClearGate? then s.(gate := if s.gate == Some(id) then None else s.gate, api := Free) else s
  }

  function CancelStep(s: State, e: Event): (t: State)
    requires Named(s)
    ensures Named(t) && s.log <= t.log && |s.ops| <= |t.ops|
    ensures t.results == s.results && t.api == s.api && |t.ops| == |s.ops|
  {
    match s.canceller
    case Calm =>
      if e.CancelGrabs? && s.active.Some? then s.(active := None, canceller := Grabbed(s.active.value)) else s
    case Grabbed(id) =>
      if e.CancelFires? then With(s, id, CancelOp(s.ops[id])).(canceller := Cancelled(id)) else s
    case Cancelled(id) =>
      if e.CancelClears? then s.(gate := if s.gate == Some(id) then None else s.gate, canceller := Calm) else s
  }

  function CallbackOf(o: Op, e: Event, next: nat): Op {
    match e
    case OnStart(_) => o.(started := true)
    case OnComplete(_, c) => Complete(o, c, next)
    case OnDestroyed(_) => Destroy(o)
    case OnFragment(_) => CountFragment(o)
    case OnObject(_) => CountObject(o)
    case _ => o
  }

  predicate IsCallback(e: Event) {
    e.OnStart? || e.OnComplete? || e.OnDestroyed? || e.OnFragment? || e.OnObject?
  }

  function ManagerStep(s: State, e: Event): (t: State)
    requires Named(s)
    ensures Named(t) && s.log <= t.log && |s.ops| <= |t.ops|
    ensures t.results == s.results && t.api == s.api && |t.ops| == |s.ops|
  {
    match s.manager
    case Between =>
      if e.IinArrives? then s.(log := s.log + [e.value], manager := Recorded)
      else if IsCallback(e) && e.id < |s.ops| && s.ops[e.id].submitted
      then With(s, e.id, CallbackOf(s.ops[e.id], e, |s.log| + 1))
      else s
    case Recorded => if e.GateLooksUp? then s.(manager := Holding(s.gate)) else s
    case Holding(op) =>
      if !e.GateReleases? then s
      else (if op.Some? then With(s, op.value, Release(s.ops[op.value])) else s).(manager := Between)
  }

  predicate ByManager(e: Event) {
    IsCallback(e) || e.IinArrives? || e.GateLooksUp? || e.GateReleases?
  }

  predicate ByCanceller(e: Event) {
    e.CancelGrabs? || e.CancelFires? || e.CancelClears?
  }

  function Step(s: State, e: Event): (t: State)
    requires Named(s)
    ensures Named(t) && s.log <= t.log && |s.ops| <= |t.ops|
  {
    if ByManager(e) then ManagerStep(s, e) else if ByCanceller(e) then CancelStep(s, e) else ApiStep(s, e)
  }

  function Run(events: seq<Event>): (s: State)
    ensures Named(s)
  {
    if events == [] then START else Step(Run(events[..|events| - 1]), events[|events| - 1])
  }

  // ------------------------------------------------------- invariant

  ghost predicate Ordered(o: Op, entries: nat, busy: bool) {
    && o.start <= entries
    && (o.done <==> o.completion.Some?)
    && (o.pending.Some? ==> o.awaits.Some?)
    && (!o.done && o.pending.Some? ==> o.pending.value == SUCCESS || o.pending.value == FAILURE_BAD_RESPONSE)
    && (o.awaits.Some? ==> o.start < o.awaits.value <= entries + (if busy then 0 else 1))
    && (o.completion == Some(SUCCESS) ==> o.pending == Some(SUCCESS) && o.awaits.value <= entries)
  }

  ghost predicate Totalled(o: Op) {
    && o.totals.fragments == o.totals.fragmentsStored + o.totals.fragmentOverflow
    && (o.detail ==> o.totals.received == o.totals.stored + o.totals.overflow)
    && o.totals.stored <= o.maxMeasurements && o.totals.fragmentsStored <= FRAGMENT_CAPACITY
  }

  ghost predicate OpsOk(s: State) {
    forall id :: 0 <= id < |s.ops| ==> Ordered(s.ops[id], |s.log|, !s.manager.Between?) && Totalled(s.ops[id])
  }

  /** The operation was decided before its window was collected. */
  predicate DecidedBefore(o: Op, at: nat) {
    !o.waitTimedOut ==> o.done && (o.completion == Some(SUCCESS) ==> o.awaits.Some? && o.awaits.value <= at)
  }

  ghost predicate ApiOk(s: State)
    requires Named(s)
  {
    && (s.api.Latched? ==> DecidedBefore(s.ops[s.api.id], |s.log|))
    && (s.api.Collected? ==> s.ops[s.api.id].start <= s.api.at <= |s.log| && DecidedBefore(s.ops[s.api.id], s.api.at))
  }

  /** A reported success stands: its operation's own IIN is in a window without gaps. */
  ghost predicate ResultOk(r: Result, s: State) {
    && r.id < |s.ops|
    && (r.outcome == Success ==>
          var o := s.ops[r.id];
          && o.done && o.completion == Some(SUCCESS) && o.pending == Some(SUCCESS)
          && o.start <= r.at <= |s.log| && Lost(s.log[..r.at], o.start) == 0
          && o.awaits.Some? && o.start < o.awaits.value <= r.at
          && r.totals.overflow == 0 && r.totals.fragmentOverflow == 0
          && (o.detail ==> r.totals.stored == r.totals.received)
          && r.totals.fragmentsStored == r.totals.fragments)
  }

  ghost predicate Inv(s: State)
  {
    Named(s) && OpsOk(s) && ApiOk(s) && forall k :: 0 <= k < |s.results| ==> ResultOk(s.results[k], s)
  }

  /** How one step may change an operation: a decision stands. */
  predicate Evolves(o: Op, p: Op) {
    && p.start == o.start && p.detail == o.detail && p.maxMeasurements == o.maxMeasurements
    && (o.done ==> p.done && p.completion == o.completion && p.pending == o.pending && p.awaits == o.awaits)
    && (o.waitTimedOut ==> p.waitTimedOut)
  }

  lemma {:induction false} OpEvolves(o: Op, e: Event, next: nat)
    ensures Evolves(o, CallbackOf(o, e, next)) && Evolves(o, Release(o)) && Evolves(o, CancelOp(o))
    ensures Evolves(o, LeaveWait(o)) && Evolves(o, o.(submitted := true)) && Evolves(o, o)
  {
  }

  lemma {:induction false} ManagerEvolves(s: State, e: Event, id: nat)
    requires Named(s) && id < |s.ops|
    ensures Evolves(s.ops[id], ManagerStep(s, e).ops[id])
  {
    OpEvolves(s.ops[id], e, |s.log| + 1);
    ManagerStepOnOp(s, e, id);
  }

  lemma {:induction false} CancelEvolves(s: State, e: Event, id: nat)
    requires Named(s) && id < |s.ops|
    ensures Evolves(s.ops[id], CancelStep(s, e).ops[id])
  {
    OpEvolves(s.ops[id], e, |s.log| + 1);
    CancelStepOnOp(s, e, id);
  }

  lemma {:induction false} ApiEvolves(s: State, e: Event, id: nat)
    requires Named(s) && id < |s.ops|
    ensures Evolves(s.ops[id], ApiStep(s, e).ops[id])
  {
    OpEvolves(s.ops[id], e, |s.log| + 1);
    ApiStepOnOp(s, e, id);
  }

  /** No step of any thread changes the decision of a decided operation or lifts an expired wait. */
  lemma {:induction false} StepEvolves(s: State, e: Event, id: nat)
    requires Named(s) && id < |s.ops|
    ensures Evolves(s.ops[id], Step(s, e).ops[id])
  {
    ManagerEvolves(s, e, id);
    CancelEvolves(s, e, id);
    ApiEvolves(s, e, id);
  }

  lemma {:induction false} ResultsStand(s: State, t: State, k: nat)
    requires k < |s.results| && ResultOk(s.results[k], s) && |s.ops| <= |t.ops| && s.log <= t.log
    requires forall id :: 0 <= id < |s.ops| ==> Evolves(s.ops[id], t.ops[id])
    ensures ResultOk(s.results[k], t)
  {
    var r := s.results[k];
    assert Evolves(s.ops[r.id], t.ops[r.id]);
    if r.outcome == Success { assert s.log[..r.at] == t.log[..r.at]; }
  }

  lemma {:induction false} CallbackKeeps(o: Op, e: Event, entries: nat)
    requires Ordered(o, entries, false) && Totalled(o)
    ensures Ordered(CallbackOf(o, e, entries + 1), entries, false) && Totalled(CallbackOf(o, e, entries + 1))
  {
  }

  lemma {:induction false} OtherOpStepsKeep(o: Op, entries: nat, busy: bool)
    requires Ordered(o, entries, busy) && Totalled(o)
    ensures Ordered(CancelOp(o), entries, busy) && Totalled(CancelOp(o))
    ensures Ordered(LeaveWait(o), entries, busy) && Totalled(LeaveWait(o))
    ensures busy ==> Ordered(Release(o), entries, busy) && Totalled(Release(o))
    ensures Ordered(o.(submitted := true), entries, busy) && Totalled(o.(submitted := true))
  {
  }

  ghost predicate OpOk(o: Op, s: State) {
    Ordered(o, |s.log|, !s.manager.Between?) && Totalled(o)
  }

  lemma {:induction false} ManagerStepOnOp(s: State, e: Event, id: nat)
    requires Named(s) && id < |s.ops|
    ensures var t := ManagerStep(s, e);
            var o, p := s.ops[id], t.ops[id];
            || (p == o && t.log == s.log && (s.manager.Between? ==> t.manager.Between?))
            || (p == o && |t.log| == |s.log| + 1 && !t.manager.Between?)
            || (p == CallbackOf(o, e, |s.log| + 1) && t.log == s.log && s.manager.Between? && t.manager.Between?)
            || (p == Release(o) && t.log == s.log && !s.manager.Between?)
  {
  }

  lemma {:induction false} ManagerKeepsOps(s: State, e: Event)
    requires Inv(s)
    ensures OpsOk(ManagerStep(s, e))
  {
    var t := ManagerStep(s, e);
    forall id | 0 <= id < |s.ops| ensures OpOk(t.ops[id], t) {
      assert OpOk(s.ops[id], s);
      ManagerStepOnOp(s, e, id);
      if s.manager.Between? { CallbackKeeps(s.ops[id], e, |s.log|); }
      OtherOpStepsKeep(s.ops[id], |s.log|, !s.manager.Between?);
    }
  }

  lemma {:induction false} CancellerKeepsOps(s: State, e: Event)
    requires Inv(s)
    ensures OpsOk(CancelStep(s, e))
  {
    var t := CancelStep(s, e);
    forall id | 0 <= id < |t.ops| ensures Ordered(t.ops[id], |t.log|, !t.manager.Between?) && Totalled(t.ops[id]) {
      OtherOpStepsKeep(s.ops[id], |s.log|, !s.manager.Between?);
    }
  }

  lemma {:induction false} ApiStepOnOp(s: State, e: Event, id: nat)
    requires Named(s) && id < |s.ops|
    ensures var o, p := s.ops[id], ApiStep(s, e).ops[id];
            p == o || p == CancelOp(o) || p == LeaveWait(o) || p == o.(submitted := true)
    ensures ApiStep(s, e).log == s.log && ApiStep(s, e).manager == s.manager
  {
  }

  lemma {:induction false} NewOpOk(s: State, e: Event)
    requires Named(s)
    ensures var t := ApiStep(s, e);
            |t.ops| == |s.ops| || (|t.ops| == |s.ops| + 1 && OpOk(t.ops[|s.ops|], t))
  {
  }

  lemma {:induction false} ApiKeepsOps(s: State, e: Event)
    requires Inv(s)
    ensures OpsOk(ApiStep(s, e))
  {
    var t := ApiStep(s, e);
    NewOpOk(s, e);
    forall id | 0 <= id < |t.ops| ensures OpOk(t.ops[id], t) {
      if id < |s.ops| {
        ApiStepOnOp(s, e, id);
        OtherOpStepsKeep(s.ops[id], |s.log|, !s.manager.Between?);
      }
    }
  }

  lemma {:induction false} WaitDecides(o: Op, entries: nat)
    requires Ordered(o, entries, true) || Ordered(o, entries, false)
    ensures DecidedBefore(LeaveWait(o), entries)
  {
  }

  lemma {:induction false} DecisionStands(o: Op, p: Op, at: nat)
    requires DecidedBefore(o, at) && Evolves(o, p)
    ensures DecidedBefore(p, at)
  {
  }

  lemma {:induction false} ApiKeepsApi(s: State, e: Event)
    requires Inv(s)
    ensures ApiOk(ApiStep(s, e))
  {
    if s.api.Waiting? {
      assert Ordered(s.ops[s.api.id], |s.log|, !s.manager.Between?);
      WaitDecides(s.ops[s.api.id], |s.log|);
    } else if s.api.Latched? {
      assert Ordered(s.ops[s.api.id], |s.log|, !s.manager.Between?);
    }
  }

  lemma {:induction false} OthersKeepApi(s: State, t: State)
    requires Inv(s) && Named(t) && s.api == t.api && s.log <= t.log && |s.ops| <= |t.ops|
    requires forall id :: 0 <= id < |s.ops| ==> Evolves(s.ops[id], t.ops[id])
    ensures ApiOk(t)
  {
    if s.api.Latched? {
      DecisionStands(s.ops[s.api.id], t.ops[s.api.id], |s.log|);
    } else if s.api.Collected? {
      DecisionStands(s.ops[s.api.id], t.ops[s.api.id], s.api.at);
    }
  }

  /** The API thread reports at most one result at a time, and a reported success is sound. */
  lemma {:induction false} NewResult(s: State, e: Event)
    requires Inv(s)
    ensures var t := ApiStep(s, e);
            t.results == s.results
            || (|t.results| == |s.results| + 1 && t.results[..|s.results|] == s.results
                && ResultOk(t.results[|s.results|], t))
  {
    if e.Report? && s.api.Collected? {
      var o := s.ops[s.api.id];
      assert Totalled(o) && Ordered(o, |s.log|, !s.manager.Between?);
    }
  }

  lemma {:induction false} ApiKeeps(s: State, e: Event)
    requires Inv(s)
    ensures Inv(ApiStep(s, e))
  {
    var t := ApiStep(s, e);
    ApiKeepsOps(s, e);
    ApiKeepsApi(s, e);
    NewResult(s, e);
    forall id | 0 <= id < |s.ops| ensures Evolves(s.ops[id], t.ops[id]) { ApiEvolves(s, e, id); }
    forall k | 0 <= k < |s.results| ensures ResultOk(s.results[k], t) { ResultsStand(s, t, k); }
    KeptResults(s, t);
  }

  lemma {:induction false} KeptResults(s: State, t: State)
    requires forall k :: 0 <= k < |s.results| ==> ResultOk(s.results[k], t)
    requires t.results == s.results
             || (|t.results| == |s.results| + 1 && t.results[..|s.results|] == s.results
                 && ResultOk(t.results[|s.results|], t))
    ensures forall k :: 0 <= k < |t.results| ==> ResultOk(t.results[k], t)
  {
    forall k | 0 <= k < |t.results| ensures ResultOk(t.results[k], t) {
      if k < |s.results| { assert t.results[k] == s.results[k]; }
    }
  }

  lemma {:induction false} OthersKeep(s: State, t: State)
    requires Inv(s) && Named(t) && OpsOk(t) && s.api == t.api && s.log <= t.log && |s.ops| <= |t.ops|
    requires s.results == t.results
    requires forall id :: 0 <= id < |s.ops| ==> Evolves(s.ops[id], t.ops[id])
    ensures Inv(t)
  {
    OthersKeepApi(s, t);
    forall k | 0 <= k < |s.results| ensures ResultOk(s.results[k], t) { ResultsStand(s, t, k); }
  }

  lemma {:induction false} StepKeeps(s: State, e: Event)
    requires Inv(s)
    ensures Inv(Step(s, e))
  {
    if ByManager(e) {
      ManagerKeepsOps(s, e);
      forall id | 0 <= id < |s.ops| ensures Evolves(s.ops[id], ManagerStep(s, e).ops[id]) { ManagerEvolves(s, e, id); }
      OthersKeep(s, ManagerStep(s, e));
    } else if ByCanceller(e) {
      CancellerKeepsOps(s, e);
      forall id | 0 <= id < |s.ops| ensures Evolves(s.ops[id], CancelStep(s, e).ops[id]) { CancelEvolves(s, e, id); }
      OthersKeep(s, CancelStep(s, e));
    } else {
      ApiKeeps(s, e);
    }
  }

  lemma {:induction false} RunKeeps(events: seq<Event>)
    ensures Inv(Run(events))
  {
    if events != [] {
      RunKeeps(events[..|events| - 1]);
      StepKeeps(Run(events[..|events| - 1]), events[|events| - 1]);
    }
  }

  // ------------------------------------------------------- main results

  /** The OnComplete call that the operation's decision waits on, found in the run. */
  ghost predicate CompletedAt(events: seq<Event>, p: nat, id: nat, c: Completion, next: nat) {
    p < |events| && events[p] == OnComplete(id, c) && |Run(events[..p]).log| + 1 == next
  }

  ghost predicate SomeCompletion(events: seq<Event>, id: nat, c: Completion, next: nat) {
    exists p: nat :: CompletedAt(events, p, id, c, next)
  }

  lemma {:induction false} CompletionPersists(events: seq<Event>, id: nat, c: Completion, next: nat)
    requires events != [] && SomeCompletion(events[..|events| - 1], id, c, next)
    ensures SomeCompletion(events, id, c, next)
  {
    var head := events[..|events| - 1];
    var p: nat :| CompletedAt(head, p, id, c, next);
    assert head[..p] == events[..p];
    assert CompletedAt(events, p, id, c, next);
  }

  predicate PendingEvolves(s: State, e: Event, id: nat, o: Op, p: Op) {
    || p.pending.None? || (p.pending == o.pending && p.awaits == o.awaits)
    || (e == OnComplete(id, p.pending.value) && p.awaits == Some(|s.log| + 1))
  }

  lemma {:induction false} CancelStepOnOp(s: State, e: Event, id: nat)
    requires Named(s) && id < |s.ops|
    ensures var o, p := s.ops[id], CancelStep(s, e).ops[id]; p == o || p == CancelOp(o)
  {
  }

  lemma {:induction false} CallbackPending(s: State, e: Event, id: nat)
    requires Named(s) && id < |s.ops|
    ensures PendingEvolves(s, e, id, s.ops[id], ManagerStep(s, e).ops[id])
  {
    ManagerStepOnOp(s, e, id);
  }

  lemma {:induction false} PendingChanges(s: State, e: Event, id: nat)
    requires Named(s) && id < |s.ops|
    ensures PendingEvolves(s, e, id, s.ops[id], Step(s, e).ops[id])
  {
    CallbackPending(s, e, id);
    CancelStepOnOp(s, e, id);
    ApiStepOnOp(s, e, id);
  }

  lemma {:induction false} NewOpHasNothing(s: State, e: Event)
    requires Named(s)
    ensures var t := ApiStep(s, e);
            |t.ops| > |s.ops| ==> |t.ops| == |s.ops| + 1 && t.ops[|s.ops|].pending.None?
  {
  }

  lemma {:induction false} PendingStep(events: seq<Event>, id: nat, next: nat)
    requires events != [] && id < |Run(events[..|events| - 1]).ops|
    requires Run(events).ops[id].pending.Some? && Run(events).ops[id].awaits == Some(next)
    ensures var o, p := Run(events[..|events| - 1]).ops[id], Run(events).ops[id];
            (p.pending == o.pending && p.awaits == o.awaits) || SomeCompletion(events, id, p.pending.value, next)
  {
    var n := |events| - 1;
    var p := Run(events).ops[id];
    PendingChanges(Run(events[..n]), events[n], id);
    if events[n] == OnComplete(id, p.pending.value) && next == |Run(events[..n]).log| + 1 {
      assert CompletedAt(events, n, id, p.pending.value, next);
    }
  }

  lemma {:induction false} StepAdds(s: State, e: Event)
    requires Named(s)
    ensures var t := Step(s, e);
            |t.ops| == |s.ops| || (|t.ops| == |s.ops| + 1 && t.ops[|s.ops|].pending.None?)
  {
    NewOpHasNothing(s, e);
  }

  lemma {:induction false} RunOpOk(events: seq<Event>, id: nat)
    requires id < |Run(events).ops|
    ensures OpOk(Run(events).ops[id], Run(events))
  {
    RunKeeps(events);
  }

  lemma {:induction false} PendingIsOlder(events: seq<Event>, id: nat)
    requires id < |Run(events).ops| && Run(events).ops[id].pending.Some?
    ensures Run(events).ops[id].awaits.Some?
    ensures events != [] && id < |Run(events[..|events| - 1]).ops|
  {
    RunOpOk(events, id);
    StepAdds(Run(events[..|events| - 1]), events[|events| - 1]);
  }

  lemma {:induction false} PendingComesFromCallback(events: seq<Event>, id: nat)
    requires id < |Run(events).ops| && Run(events).ops[id].pending.Some?
    ensures var o := Run(events).ops[id];
            o.awaits.Some? && SomeCompletion(events, id, o.pending.value, o.awaits.value)
  {
    PendingIsOlder(events, id);
    var head := events[..|events| - 1];
    var o := Run(events).ops[id];
    PendingStep(events, id, o.awaits.value);
    if !SomeCompletion(events, id, o.pending.value, o.awaits.value) {
      PendingComesFromCallback(head, id);
      CompletionPersists(events, id, o.pending.value, o.awaits.value);
    }
  }

  /**
   * A read that reports success.  Its window is the complete log since submission; its
   * OnComplete(SUCCESS) really happened, and the first IIN received after it, which is the IIN
   * of that same response, is in the window.  Nothing it counted was left out of the result.
   */
  lemma {:induction false} SuccessIsComplete(events: seq<Event>, k: nat)
    requires k < |Run(events).results| && Run(events).results[k].outcome == Success
    ensures var s := Run(events);
            var r := s.results[k];
            && r.id < |s.ops| && s.ops[r.id].start <= r.at <= |s.log|
            && Known(s.log[..r.at], s.ops[r.id].start) == Numbered(s.log[..r.at])[s.ops[r.id].start..]
            && (exists own :: s.ops[r.id].start < own <= r.at && SomeCompletion(events, r.id, SUCCESS, own))
            && (s.ops[r.id].detail ==> r.totals.stored == r.totals.received)
            && r.totals.fragmentsStored == r.totals.fragments
  {
    RunKeeps(events);
    var s := Run(events);
    var r := s.results[k];
    assert ResultOk(r, s);
    CompleteWindow(s.log[..r.at], s.ops[r.id].start);
    PendingComesFromCallback(events, r.id);
    assert SomeCompletion(events, r.id, SUCCESS, s.ops[r.id].awaits.value);
  }

  // ------------------------------------------------------- expired waits

  /** The call of operation `id` left its wait in this step of the run, and nothing was decided yet. */
  predicate ExpiredAt(events: seq<Event>, j: nat, id: nat) {
    && j < |events| && events[j].WaitReturns?
    && var s := Run(events[..j]); s.api == Waiting(id) && !s.ops[id].done
  }

  /** The API call has not returned yet. */
  predicate Unreported(a: Api) {
    a.Prepared? || a.Armed? || a.Waiting? || a.Latched? || a.Collected? || a.Thrown?
  }

  predicate ResultFits(r: Result, s: State)
    requires Named(s)
  {
    && r.id < |s.ops| && (Unreported(s.api) ==> r.id != s.api.id)
    && (s.ops[r.id].waitTimedOut ==> r.outcome == ResponseTimeout)
  }

  ghost predicate ResultsFit(s: State)
    requires Named(s)
  {
    forall k :: 0 <= k < |s.results| ==> ResultFits(s.results[k], s)
  }

  predicate ExpiresNow(s: State, e: Event, id: nat)
    requires id < |s.ops|
  {
    e.WaitReturns? && s.api == Waiting(id) && !s.ops[id].done
  }

  lemma {:induction false} OthersDoNotExpire(s: State, e: Event, id: nat)
    requires Named(s) && id < |s.ops|
    ensures ManagerStep(s, e).ops[id].waitTimedOut == s.ops[id].waitTimedOut
    ensures CancelStep(s, e).ops[id].waitTimedOut == s.ops[id].waitTimedOut
  {
    ManagerStepOnOp(s, e, id);
    CancelStepOnOp(s, e, id);
  }

  lemma {:induction false} ApiExpires(s: State, e: Event, id: nat)
    requires Named(s) && id < |s.ops|
    ensures ApiStep(s, e).ops[id].waitTimedOut <==> s.ops[id].waitTimedOut || ExpiresNow(s, e, id)
  {
    if e.WaitReturns? && s.api.Waiting? {
      assert ApiStep(s, e).ops == s.ops[s.api.id := LeaveWait(s.ops[s.api.id])];
    } else {
      OtherApiStepOnOp(s, e, id);
    }
  }

  /** Only leaving the wait undecided marks an operation as expired. */
  lemma {:induction false} OnlyWaitExpires(s: State, e: Event, id: nat)
    requires Named(s) && id < |s.ops|
    ensures Step(s, e).ops[id].waitTimedOut <==> s.ops[id].waitTimedOut || ExpiresNow(s, e, id)
  {
    OthersDoNotExpire(s, e, id);
    ApiExpires(s, e, id);
  }

  lemma {:induction false} OtherApiStepOnOp(s: State, e: Event, id: nat)
    requires Named(s) && id < |s.ops| && !(e.WaitReturns? && s.api.Waiting?)
    ensures var o, p := s.ops[id], ApiStep(s, e).ops[id];
            p == o || p == CancelOp(o) || p == o.(submitted := true)
  {
  }

  /** A call returns once, and what it returns is read from its operation. */
  lemma {:induction false} NewResultFits(s: State, e: Event)
    requires Named(s) && ResultsFit(s)
    ensures var t := Step(s, e);
            && (Unreported(t.api) ==> t.api == s.api || t.api.id == |s.ops| || (Unreported(s.api) && t.api.id == s.api.id))
            && (t.results == s.results
                || (|t.results| == |s.results| + 1 && t.results[..|s.results|] == s.results
                    && ResultFits(t.results[|s.results|], t)))
  {
  }

  lemma {:induction false} StepKeepsResults(s: State, e: Event)
    requires Named(s) && ResultsFit(s)
    ensures ResultsFit(Step(s, e))
  {
    var t := Step(s, e);
    NewResultFits(s, e);
    forall k | 0 <= k < |t.results| ensures ResultFits(t.results[k], t) {
      if k < |s.results| {
        assert t.results[k] == s.results[k] && ResultFits(s.results[k], s);
        OnlyWaitExpires(s, e, s.results[k].id);
      }
    }
  }

  lemma {:induction false} RunKeepsResults(events: seq<Event>)
    ensures ResultsFit(Run(events))
  {
    if events != [] {
      RunKeepsResults(events[..|events| - 1]);
      StepKeepsResults(Run(events[..|events| - 1]), events[|events| - 1]);
    }
  }

  ghost predicate Expired(events: seq<Event>, id: nat) {
    exists j: nat :: ExpiredAt(events, j, id)
  }

  /** A wait of the run expired in its last step or before it. */
  lemma {:induction false} ExpiredSnoc(events: seq<Event>, id: nat)
    requires events != []
    ensures var n := |events| - 1;
            Expired(events, id) <==> Expired(events[..n], id) || ExpiredAt(events, n, id)
  {
    var n := |events| - 1;
    forall j: nat | j < n ensures ExpiredAt(events[..n], j, id) <==> ExpiredAt(events, j, id) {
      assert events[..n][..j] == events[..j];
    }
    if Expired(events[..n], id) {
      var j: nat :| ExpiredAt(events[..n], j, id);
      assert ExpiredAt(events, j, id);
    }
    if Expired(events, id) {
      var j: nat :| ExpiredAt(events, j, id);
      assert j < n ==> ExpiredAt(events[..n], j, id);
    }
  }

  lemma {:induction false} UnknownNeverExpired(events: seq<Event>, id: nat)
    requires |Run(events).ops| <= id
    ensures !Expired(events, id)
  {
    forall j: nat | j < |events| ensures !ExpiredAt(events, j, id) { OpsOnlyGrow(events, j); }
  }

  lemma {:induction false} LastStepMarks(events: seq<Event>, id: nat)
    requires events != [] && id < |Run(events).ops|
    ensures var n := |events| - 1;
            var s := Run(events[..n]);
            Run(events).ops[id].waitTimedOut
            <==> (id < |s.ops| && s.ops[id].waitTimedOut) || ExpiredAt(events, n, id)
  {
    var n := |events| - 1;
    if id < |Run(events[..n]).ops| {
      OnlyWaitExpires(Run(events[..n]), events[n], id);
    } else {
      NewOpIsUnmarked(Run(events[..n]), events[n], id);
    }
  }

  /** An operation is marked as expired exactly when its call left its wait before a decision. */
  lemma {:induction false} MarkedMeansExpired(events: seq<Event>, id: nat)
    requires id < |Run(events).ops|
    ensures Run(events).ops[id].waitTimedOut <==> Expired(events, id)
  {
    if events != [] {
      var head := events[..|events| - 1];
      LastStepMarks(events, id);
      ExpiredSnoc(events, id);
      if id < |Run(head).ops| { MarkedMeansExpired(head, id); } else { UnknownNeverExpired(head, id); }
    }
  }

  lemma {:induction false} NewOpIsUnmarked(s: State, e: Event, id: nat)
    requires Named(s) && |s.ops| <= id < |Step(s, e).ops|
    ensures !Step(s, e).ops[id].waitTimedOut
  {
  }

  lemma {:induction false} LastStepGrows(events: seq<Event>)
    requires events != []
    ensures |Run(events[..|events| - 1]).ops| <= |Run(events).ops|
  {
  }

  lemma {:induction false} OpsOnlyGrow(events: seq<Event>, j: nat)
    requires j <= |events|
    ensures |Run(events[..j]).ops| <= |Run(events).ops|
  {
    if j == |events| {
      assert events[..j] == events;
    } else {
      var head := events[..|events| - 1];
      OpsOnlyGrow(head, j);
      assert head[..j] == events[..j];
      LastStepGrows(events);
    }
  }

  /**
   * A call that left its wait before its operation was decided never returns anything but a
   * timeout, whatever callbacks, cancellation and IINs come before its result is put together.
   */
  lemma {:induction false} ExpiredWaitIsFinal(events: seq<Event>, j: nat, id: nat)
    requires ExpiredAt(events, j, id)
    ensures var s := Run(events);
            forall k :: 0 <= k < |s.results| && s.results[k].id == id ==> s.results[k].outcome == ResponseTimeout
  {
    OpsOnlyGrow(events, j);
    assert Expired(events, id);
    MarkedMeansExpired(events, id);
    RunKeepsResults(events);
    var s := Run(events);
    forall k | 0 <= k < |s.results| && s.results[k].id == id ensures s.results[k].outcome == ResponseTimeout {
      assert ResultFits(s.results[k], s);
    }
  }

  // ------------------------------------------------------- what a call answers

  /** Something was left out of the result: objects, fragments, or IINs of its window. */
  predicate Overflowed(r: Result, s: State)
    requires r.id < |s.ops| && r.at <= |s.log|
  {
    r.totals.overflow > 0 || r.totals.fragmentOverflow > 0 || Lost(s.log[..r.at], s.ops[r.id].start) > 0
  }

  /** What the four outcomes mean, given how the operation was decided. */
  predicate Means(outcome: Outcome, overflowed: bool, completion: Completion) {
    && (outcome == Success <==> !overflowed && completion == SUCCESS)
    && (outcome == QueueOverflow <==> overflowed)
    && (outcome == ResponseTimeout <==> !overflowed && completion == FAILURE_RESPONSE_TIMEOUT)
    && (outcome == TaskFailed <==> !overflowed && completion != SUCCESS && completion != FAILURE_RESPONSE_TIMEOUT)
  }

  predicate ResultExact(r: Result, s: State) {
    r.id < |s.ops| && r.at <= |s.log| && s.ops[r.id].start <= r.at &&
    (!s.ops[r.id].waitTimedOut ==>
       && s.ops[r.id].done && s.ops[r.id].completion.Some?
       && Means(r.outcome, Overflowed(r, s), s.ops[r.id].completion.value))
  }

  ghost predicate ResultsExact(s: State) {
    forall k :: 0 <= k < |s.results| ==> ResultExact(s.results[k], s)
  }

  lemma {:induction false} ExactStands(s: State, e: Event, r: Result)
    requires Named(s) && ResultExact(r, s)
    ensures ResultExact(r, Step(s, e))
  {
    StepEvolves(s, e, r.id);
    assert s.log[..r.at] == Step(s, e).log[..r.at];
  }

  lemma {:induction false} NewResultExact(s: State, e: Event)
    requires Inv(s)
    ensures var t := Step(s, e);
            t.results == s.results
            || (|t.results| == |s.results| + 1 && t.results[..|s.results|] == s.results
                && ResultExact(t.results[|s.results|], t))
  {
    if e.Report? && s.api.Collected? { assert OpOk(s.ops[s.api.id], s); }
  }

  lemma {:induction false} StepKeepsExact(s: State, e: Event)
    requires Inv(s) && ResultsExact(s)
    ensures ResultsExact(Step(s, e))
  {
    var t := Step(s, e);
    NewResultExact(s, e);
    forall k | 0 <= k < |t.results| ensures ResultExact(t.results[k], t) {
      if k < |s.results| {
        assert t.results[k] == s.results[k];
        ExactStands(s, e, s.results[k]);
      }
    }
  }

  lemma {:induction false} RunKeepsExact(events: seq<Event>)
    ensures ResultsExact(Run(events))
  {
    if events != [] {
      RunKeeps(events[..|events| - 1]);
      RunKeepsExact(events[..|events| - 1]);
      StepKeepsExact(Run(events[..|events| - 1]), events[|events| - 1]);
    }
  }

  /**
   * What a call answers, both ways, in every run: a timeout if its wait expired; otherwise an
   * overflow exactly if something was left out; otherwise success exactly for SUCCESS, a timeout
   * exactly for FAILURE_RESPONSE_TIMEOUT, and a task failure for every other completion.
   */
  lemma {:induction false} AnswersExactly(events: seq<Event>, k: nat)
    requires k < |Run(events).results|
    ensures var s := Run(events);
            var r := s.results[k];
            && r.id < |s.ops| && s.ops[r.id].start <= r.at <= |s.log|
            && (Expired(events, r.id) ==> r.outcome == ResponseTimeout)
            && (!Expired(events, r.id) ==>
                  s.ops[r.id].completion.Some? && Means(r.outcome, Overflowed(r, s), s.ops[r.id].completion.value))
  {
    RunKeepsExact(events);
    RunKeepsResults(events);
    var s := Run(events);
    var r := s.results[k];
    assert ResultExact(r, s) && ResultFits(r, s);
    MarkedMeansExpired(events, r.id);
  }

  /** A read succeeds exactly if it was decided with SUCCESS before its wait expired and nothing was left out. */
  lemma {:induction false} SucceedsExactly(events: seq<Event>, k: nat)
    requires k < |Run(events).results|
    ensures var s := Run(events);
            var r := s.results[k];
            && r.id < |s.ops| && s.ops[r.id].start <= r.at <= |s.log|
            && (r.outcome == Success <==>
                  && !Expired(events, r.id) && s.ops[r.id].completion == Some(SUCCESS)
                  && r.totals.overflow == 0 && r.totals.fragmentOverflow == 0
                  && Known(s.log[..r.at], s.ops[r.id].start) == Numbered(s.log[..r.at])[s.ops[r.id].start..])
  {
    AnswersExactly(events, k);
    var s := Run(events);
    CompleteWindow(s.log[..s.results[k].at], s.ops[s.results[k].id].start);
  }

  // ------------------------------------------------------- what the totals count

  /** The callbacks of the operation that the library made in the run. */
  function Objects(events: seq<Event>, id: nat): nat {
    if events == [] then 0
    else
      var head, last := events[..|events| - 1], events[|events| - 1];
      Objects(head, id) + (if last == OnObject(id) && Delivers(Run(head), id) then 1 else 0)
  }

  function Fragments(events: seq<Event>, id: nat): nat {
    if events == [] then 0
    else
      var head, last := events[..|events| - 1], events[|events| - 1];
      Fragments(head, id) + (if last == OnFragment(id) && Delivers(Run(head), id) then 1 else 0)
  }

  predicate Delivers(s: State, id: nat) {
    s.manager.Between? && id < |s.ops| && s.ops[id].submitted
  }

  function Least(a: nat, b: nat): nat {
    if a < b then a else b
  }

  /** The totals in terms of the numbers of objects and fragments delivered. */
  predicate Tallies(o: Op, objects: nat, fragments: nat) {
    && o.totals.received == objects && o.totals.fragments == fragments
    && o.totals.overflow == objects - Least(objects, o.maxMeasurements)
    && o.totals.stored == (if o.detail then Least(objects, o.maxMeasurements) else 0)
    && o.totals.fragmentsStored == Least(fragments, 4096)
    && o.totals.fragmentOverflow == fragments - Least(fragments, 4096)
  }

  lemma {:induction false} CallbackTallies(o: Op, e: Event, next: nat, objects: nat, fragments: nat)
    requires Tallies(o, objects, fragments)
    ensures Tallies(CallbackOf(o, e, next), objects + (if e.OnObject? then 1 else 0), fragments + (if e.OnFragment? then 1 else 0))
  {
  }

  /** An operation whose totals have not moved. */
  predicate SameTotals(o: Op, p: Op) {
    p.totals == o.totals && p.maxMeasurements == o.maxMeasurements && p.detail == o.detail
  }

  lemma {:induction false} DecisionsDoNotCount(o: Op)
    ensures SameTotals(o, Release(o)) && SameTotals(o, CancelOp(o)) && SameTotals(o, LeaveWait(o))
  {
  }

  lemma {:induction false} QuietManagerKeepsTotals(s: State, e: Event, id: nat)
    requires Named(s) && id < |s.ops| && !(IsCallback(e) && e.id == id && Delivers(s, id))
    ensures SameTotals(s.ops[id], ManagerStep(s, e).ops[id])
  {
    DecisionsDoNotCount(s.ops[id]);
  }

  lemma {:induction false} ManagerTallies(s: State, e: Event, id: nat, objects: nat, fragments: nat)
    requires Named(s) && id < |s.ops| && Tallies(s.ops[id], objects, fragments)
    ensures Tallies(ManagerStep(s, e).ops[id],
                    objects + (if e == OnObject(id) && Delivers(s, id) then 1 else 0),
                    fragments + (if e == OnFragment(id) && Delivers(s, id) then 1 else 0))
  {
    if IsCallback(e) && e.id == id && Delivers(s, id) {
      CallbackTallies(s.ops[id], e, |s.log| + 1, objects, fragments);
    } else {
      QuietManagerKeepsTotals(s, e, id);
    }
  }

  lemma {:induction false} OthersTally(s: State, e: Event, id: nat, objects: nat, fragments: nat)
    requires Named(s) && id < |s.ops| && Tallies(s.ops[id], objects, fragments)
    ensures Tallies(CancelStep(s, e).ops[id], objects, fragments) && Tallies(ApiStep(s, e).ops[id], objects, fragments)
  {
    DecisionsDoNotCount(s.ops[id]);
    CancelStepOnOp(s, e, id);
    ApiStepOnOp(s, e, id);
  }

  lemma {:induction false} NewOpTallies(s: State, e: Event, id: nat)
    requires Named(s) && |s.ops| <= id < |Step(s, e).ops|
    ensures Tallies(Step(s, e).ops[id], 0, 0)
  {
  }

  lemma {:induction false} NothingDeliveredYet(events: seq<Event>, id: nat)
    requires |Run(events).ops| <= id
    ensures Objects(events, id) == 0 && Fragments(events, id) == 0
  {
    if events != [] {
      LastStepGrows(events);
      NothingDeliveredYet(events[..|events| - 1], id);
    }
  }

  /** The totals of an operation count exactly the callbacks the library made for it. */
  lemma {:induction false} TotalsCountCallbacks(events: seq<Event>, id: nat)
    requires id < |Run(events).ops|
    ensures Tallies(Run(events).ops[id], Objects(events, id), Fragments(events, id))
  {
    if events != [] {
      var head, e := events[..|events| - 1], events[|events| - 1];
      var s := Run(head);
      if id < |s.ops| {
        TotalsCountCallbacks(head, id);
        ManagerTallies(s, e, id, Objects(head, id), Fragments(head, id));
        OthersTally(s, e, id, Objects(head, id), Fragments(head, id));
      } else {
        NothingDeliveredYet(head, id);
        NewOpTallies(s, e, id);
      }
    }
  }

  // ------------------------------------------------------- how operations are decided

  /**
   * What decides an undecided operation at once: a completion that is no response, its destruction
   * with nothing pending, or a cancel.  A response completion and a destruction after it only wait for the IIN.
   */
  lemma {:induction false} CallbacksDecide(s: State, id: nat, c: Completion)
    requires Named(s) && Delivers(s, id) && !s.ops[id].done
    ensures var o := Step(s, OnComplete(id, c)).ops[id];
            && o.pending == Some(c)
            && (c == SUCCESS || c == FAILURE_BAD_RESPONSE ==> !o.done)
            && (c != SUCCESS && c != FAILURE_BAD_RESPONSE ==> o.done && o.completion == Some(c))
    ensures var o := Step(s, OnDestroyed(id)).ops[id];
            && o.destroyed && o.pending == s.ops[id].pending
            && (s.ops[id].pending.Some? ==> !o.done)
            && (s.ops[id].pending.None? ==> o.done && o.completion == Some(FAILURE_NO_COMMS))
  {
  }

  /** Cancelling the active operation decides it if it is undecided, and disarms it. */
  lemma {:induction false} CancelDecides(s: State)
    requires Named(s) && s.canceller.Calm? && s.active.Some?
    ensures var id := s.active.value;
            var t := Step(Step(Step(s, CancelGrabs), CancelFires), CancelClears);
            && t.canceller.Calm? && t.active.None? && t.gate != Some(id) && t.api == s.api
            && t.ops[id].done && t.ops[id].destroyed
            && t.ops[id].completion == (if s.ops[id].done then s.ops[id].completion else Some(FAILURE_NO_COMMS))
  {
    var s1 := Step(s, CancelGrabs);
    assert s1.canceller == Grabbed(s.active.value) && s1.ops == s.ops;
    var s2 := Step(s1, CancelFires);
    assert s2.canceller == Cancelled(s.active.value);
  }

  /** Clearing up disarms the operation and frees the API. */
  lemma {:induction false} ClearsUp(s: State)
    requires Named(s) && s.api.ClearingActive?
    ensures var t := Step(Step(s, ClearActive), ClearGate);
            && t.api.Free? && t.active != Some(s.api.id) && t.gate != Some(s.api.id)
            && t.ops == s.ops && t.results == s.results
  {
    assert Step(s, ClearActive).api == ClearingGate(s.api.id);
  }

  /** A submission that throws decides its operation and clears up. */
  lemma {:induction false} ThrowDecides(s: State)
    requires Named(s) && s.api.Armed? && !s.ops[s.api.id].done
    ensures var t := Step(Step(s, SubmitThrows), HandleThrow);
            && t.api == ClearingActive(s.api.id) && t.results == s.results
            && t.ops[s.api.id].done && t.ops[s.api.id].completion == Some(FAILURE_NO_COMMS)
  {
    assert Step(s, SubmitThrows).api == Thrown(s.api.id);
  }

  /** A call that has reported clears up a decided operation, and leaves an undecided one active. */
  lemma {:induction false} ReportedClearsUp(s: State)
    requires Named(s) && s.api.Reported?
    ensures Step(s, CheckDone) == s.(api := if s.ops[s.api.id].done then ClearingActive(s.api.id) else Free)
  {
  }

  /** A submission is refused exactly while the active operation is undecided. */
  lemma {:induction false} ExecuteStartsExactly(s: State, maxMeasurements: nat, detail: bool)
    requires Named(s) && s.api.Free?
    ensures var t := Step(s, Execute(maxMeasurements, detail));
            && (s.active.Some? && !s.ops[s.active.value].done ==> t == s)
            && (s.active.None? || s.ops[s.active.value].done ==>
                  && |t.ops| == |s.ops| + 1 && t.ops[..|s.ops|] == s.ops && t.active == Some(|s.ops|)
                  && t.ops[|s.ops|].start == |s.log| && !t.ops[|s.ops|].done
                  && t.ops[|s.ops|].maxMeasurements == maxMeasurements && t.ops[|s.ops|].detail == detail)
  {
  }

  // ------------------------------------------------------- a read that succeeds

  lemma {:induction false} RunSnoc(events: seq<Event>, e: Event)
    ensures Run(events + [e]) == Step(Run(events), e)
  {
    assert (events + [e])[..|events|] == events;
  }

  /** The operation of a read that was submitted and decided by its own response. */
  function Decided(maxMeasurements: nat, detail: bool): Op {
    NewOp(0, maxMeasurements, detail)
      .(submitted := true, done := true, pending := Some(SUCCESS), completion := Some(SUCCESS), awaits := Some(1))
  }

  function Submitted(maxMeasurements: nat, detail: bool): Op {
    NewOp(0, maxMeasurements, detail).(submitted := true)
  }

  function Alone(log: seq<Iin>, o: Op, manager: Manager, api: Api): State {
    State(log, [o], Some(0), Some(0), manager, api, Calm, [])
  }

  lemma {:induction false} SubmittedInThree(maxMeasurements: nat, detail: bool) returns (events: seq<Event>)
    ensures Run(events) == Alone([], Submitted(maxMeasurements, detail), Between, Waiting(0))
  {
    var s1 := Step(START, Execute(maxMeasurements, detail));
    var s2 := Step(s1, SetGate);
    assert s1.ops == [NewOp(0, maxMeasurements, detail)] && s2.api == Armed(0);
    assert Step(s2, Submit) == Alone([], Submitted(maxMeasurements, detail), Between, Waiting(0));
    RunSnoc([], Execute(maxMeasurements, detail));
    RunSnoc([] + [Execute(maxMeasurements, detail)], SetGate);
    RunSnoc([] + [Execute(maxMeasurements, detail)] + [SetGate], Submit);
    events := [] + [Execute(maxMeasurements, detail)] + [SetGate] + [Submit];
  }

  lemma {:induction false} ResponseDecides(maxMeasurements: nat, detail: bool, value: Iin)
    ensures var s := Alone([], Submitted(maxMeasurements, detail), Between, Waiting(0));
            Step(Step(Step(Step(s, OnComplete(0, SUCCESS)), IinArrives(value)), GateLooksUp), GateReleases)
            == Alone([value], Decided(maxMeasurements, detail), Between, Waiting(0))
  {
    var s := Alone([], Submitted(maxMeasurements, detail), Between, Waiting(0));
    var p := Submitted(maxMeasurements, detail).(pending := Some(SUCCESS), awaits := Some(1));
    var s1 := Step(s, OnComplete(0, SUCCESS));
    assert s1 == Alone([], p, Between, Waiting(0));
    var s2 := Step(s1, IinArrives(value));
    assert s2 == Alone([value], p, Recorded, Waiting(0));
    var s3 := Step(s2, GateLooksUp);
    assert s3 == Alone([value], p, Holding(Some(0)), Waiting(0));
  }

  lemma {:induction false} DecidedAnswers(maxMeasurements: nat, detail: bool, value: Iin)
    ensures var s := Alone([value], Decided(maxMeasurements, detail), Between, Waiting(0));
            var t := Step(Step(Step(s, WaitReturns), Collect), Report);
            |t.results| == 1 && t.results[0].outcome == Success && t.results[0].at == 1 && t.log == [value]
  {
    var s := Alone([value], Decided(maxMeasurements, detail), Between, Waiting(0));
    var s2 := Step(Step(s, WaitReturns), Collect);
    assert s2 == Alone([value], Decided(maxMeasurements, detail), Between, Collected(0, 1));
  }

  lemma {:induction false} FourMore(events: seq<Event>, a: Event, b: Event, c: Event, d: Event) returns (more: seq<Event>)
    ensures Run(more) == Step(Step(Step(Step(Run(events), a), b), c), d)
  {
    RunSnoc(events, a);
    RunSnoc(events + [a], b);
    RunSnoc(events + [a] + [b], c);
    RunSnoc(events + [a] + [b] + [c], d);
    more := events + [a] + [b] + [c] + [d];
  }

  /** A run whose read answers success, with the one IIN of its response in its window. */
  lemma {:induction false} SomeReadSucceeds(maxMeasurements: nat, detail: bool, value: Iin) returns (events: seq<Event>)
    ensures |Run(events).results| == 1 && Run(events).results[0].outcome == Success
    ensures Run(events).log == [value] && Run(events).results[0].at == 1
  {
    var first := SubmittedInThree(maxMeasurements, detail);
    var decided := FourMore(first, OnComplete(0, SUCCESS), IinArrives(value), GateLooksUp, GateReleases);
    ResponseDecides(maxMeasurements, detail, value);
    DecidedAnswers(maxMeasurements, detail, value);
    RunSnoc(decided, WaitReturns);
    RunSnoc(decided + [WaitReturns], Collect);
    RunSnoc(decided + [WaitReturns] + [Collect], Report);
    events := decided + [WaitReturns] + [Collect] + [Report];
  }

  // ------------------------------------------------------- the gate is armed

  /** The gate names every undecided active operation once it has been armed. */
  ghost predicate GateHolds(s: State)
    requires Named(s)
  {
    && (s.active.Some? && !s.ops[s.active.value].done ==> s.api == Prepared(s.active.value) || s.gate == s.active)
    && (s.api.Prepared? ==> s.active.None? || s.active.value == s.api.id)
    && (s.api.ClearingActive? || s.api.ClearingGate? ==> s.ops[s.api.id].done)
    && (s.canceller.Cancelled? ==> s.ops[s.canceller.id].done)
  }

  lemma {:induction false} ApiKeepsGate(s: State, e: Event)
    requires Named(s) && GateHolds(s)
    ensures GateHolds(ApiStep(s, e))
  {
    ApiKeepsActiveGate(s, e);
    if s.canceller.Cancelled? { ApiEvolves(s, e, s.canceller.id); }
  }

  lemma {:induction false} ApiKeepsActiveGate(s: State, e: Event)
    requires Named(s) && GateHolds(s)
    ensures var t := ApiStep(s, e);
            t.active.Some? && !t.ops[t.active.value].done ==> t.api == Prepared(t.active.value) || t.gate == t.active
  {
    if s.active.Some? { ApiEvolves(s, e, s.active.value); }
  }

  lemma {:induction false} ManagerKeepsGate(s: State, e: Event)
    requires Named(s) && GateHolds(s)
    ensures GateHolds(ManagerStep(s, e))
  {
    if s.active.Some? { ManagerEvolves(s, e, s.active.value); }
    if !s.api.Free? { ManagerEvolves(s, e, s.api.id); }
    if s.canceller.Cancelled? { ManagerEvolves(s, e, s.canceller.id); }
  }

  lemma {:induction false} CancellerKeepsGate(s: State, e: Event)
    requires Named(s) && GateHolds(s)
    ensures GateHolds(CancelStep(s, e))
  {
    if s.active.Some? { CancelEvolves(s, e, s.active.value); }
    if !s.api.Free? { CancelEvolves(s, e, s.api.id); }
    if s.canceller.Cancelled? { CancelEvolves(s, e, s.canceller.id); }
  }

  lemma {:induction false} RunHoldsGate(events: seq<Event>)
    ensures GateHolds(Run(events))
  {
    if events != [] {
      RunHoldsGate(events[..|events| - 1]);
      ApiKeepsGate(Run(events[..|events| - 1]), events[|events| - 1]);
      ManagerKeepsGate(Run(events[..|events| - 1]), events[|events| - 1]);
      CancellerKeepsGate(Run(events[..|events| - 1]), events[|events| - 1]);
    }
  }

  /** The IIN that follows OnComplete releases the active operation with exactly that completion. */
  lemma {:induction false} OwnIinReleases(events: seq<Event>, value: Iin)
    requires var s := Run(events);
             && s.manager.Between? && s.active.Some? && !s.api.Prepared?
             && !s.ops[s.active.value].done && s.ops[s.active.value].pending.Some?
    ensures var s := Run(events);
            var t := Step(Step(Step(s, IinArrives(value)), GateLooksUp), GateReleases);
            var o := t.ops[s.active.value];
            && t.manager.Between? && t.log == s.log + [value]
            && o.done && o.completion == s.ops[s.active.value].pending
  {
    RunHoldsGate(events);
    var s := Run(events);
    var a := Step(s, IinArrives(value));
    var b := Step(a, GateLooksUp);
    assert b.manager == Holding(s.active) && b.ops == s.ops;
  }
}
