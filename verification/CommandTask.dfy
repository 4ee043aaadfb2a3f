// A control operation: callbacks decide it, one operation at a time may be undecided, and a
// decision never changes.  The RPC thread makes every call, `disconnect`'s cancel included.

module CommandTask {
  import opened Commands
  import opened Common

  datatype Mode = SelectAndOperate | DirectOperate

  /** No step reads `points`, the points behind `verdict`. */
  datatype Op = Op(
    taskId: nat, mode: Mode, commands: seq<Command>, metadata: map<nat, Request>, started: bool, destroyed: bool,
    cancelled: bool, done: bool, callback: Option<Completion>, completion: Option<Completion>,
    verdict: Verdict, points: seq<Point>)

  function NewOp(taskId: nat, mode: Mode, commands: seq<Command>): Op {
    Op(taskId, mode, commands, MetadataOf(commands), false, false, false, false, None, None, Verdict([], 0, 0, 0), [])
  }

  function Destroy(o: Op): Op {
    var d := o.(destroyed := true);
    if !o.done && o.callback.Some? then d.(completion := o.callback, done := true) else d
  }

  function Complete(o: Op, summary: Completion, points: seq<Point>): Op {
    if o.done then o
    else o.(completion := Some(summary), verdict := VerdictOf(points, o.metadata), points := points, done := true)
  }

  function CancelOp(o: Op): Op {
    if o.done then o
    else o.(cancelled := true, destroyed := true, completion := Some(FAILURE_NO_COMMS), done := true)
  }

  // ------------------------------------------------------------- outcome

  datatype Report = Report(
    taskId: nat, mode: Mode, status: Completion, started: bool, destroyed: bool, allSuccess: bool, uncertain: bool,
    items: seq<Item>, requested: nat, returned: nat, successful: nat, failed: int)

  datatype FailCode = RESPONSE_TIMEOUT | COMMAND_FAILED

  datatype Outcome =
    | Undecided(started: bool)
    | Failed(code: FailCode, uncertain: bool, report: Report)
    | Uncorrelated(report: Report)
    | Success(report: Report)

  predicate AllPointsSuccess(o: Op) {
    |o.verdict.items| == |o.commands| && o.verdict.success == |o.commands|
  }

  predicate TaskFailed(o: Op) {
    o.completion != Some(SUCCESS) || o.cancelled
  }

  predicate Uncertain(o: Op) {
    (o.started && TaskFailed(o)) || o.verdict.manual > 0 || o.verdict.errors > 0
  }

  predicate AllSuccess(o: Op) {
    o.completion == Some(SUCCESS) && AllPointsSuccess(o) && !o.cancelled && o.verdict.errors == 0
  }

  function ReportOf(o: Op, uncertain: bool): Report
    requires o.completion.Some?
  {
    Report(o.taskId, o.mode, o.completion.value, o.started, o.destroyed, AllSuccess(o), uncertain, o.verdict.items,
           |o.commands|, |o.verdict.items|, o.verdict.success, |o.verdict.items| - o.verdict.success)
  }

  function OutcomeOf(o: Op): Outcome {
    if !o.done || o.completion.None? then Undecided(o.started)
    else if TaskFailed(o) then
      Failed(if o.completion == Some(FAILURE_RESPONSE_TIMEOUT) then RESPONSE_TIMEOUT else COMMAND_FAILED,
             Uncertain(o), ReportOf(o, Uncertain(o)))
    else if |o.verdict.items| != |o.commands| || o.verdict.errors > 0 then Uncorrelated(ReportOf(o, true))
    else Success(ReportOf(o, Uncertain(o)))
  }

  class CommandOperation {
    const taskId: nat
    const mode: Mode
    const commands: seq<Command>
    const metadata: map<nat, Request>
    var started: bool
    var destroyed: bool
    var cancelled: bool
    var done: bool
    var callback: Option<Completion>
    var completion: Option<Completion>
    var verdict: Verdict
    ghost var points: seq<Point>

    ghost function Abs(): Op
      reads this
    {
      Op(taskId, mode, commands, metadata, started, destroyed, cancelled, done, callback, completion, verdict, points)
    }

    constructor (taskId: nat, mode: Mode, commands: seq<Command>)
      requires InRange(commands)
      ensures Abs() == NewOp(taskId, mode, commands)
    {
      this.taskId, this.mode, this.commands := taskId, mode, commands;
      var headers, map', expected := BuildCommandSet(commands);
      metadata := map';
      started, destroyed, cancelled, done := false, false, false, false;
      callback, completion, verdict, points := None, None, Verdict([], 0, 0, 0), [];
    }

    method MarkStarted()
      modifies `started
      ensures Abs() == old(Abs()).(started := true)
    {
      started := true;
    }

    method MarkTaskComplete(c: Completion)
      modifies `callback
      ensures Abs() == old(Abs()).(callback := Some(c))
    {
      callback := Some(c);
    }

    method MarkDestroyed()
      modifies `destroyed, `completion, `done
      ensures Abs() == Destroy(old(Abs()))
    {
      destroyed := true;
      if !done && callback.Some? {
        completion := callback;
        done := true;
      }
    }

    method CompleteWith(summary: Completion, returned: seq<Point>)
      modifies `completion, `verdict, `done, `points
      ensures Abs() == Complete(old(Abs()), summary, returned)
    {
      var v := Correlate(returned, metadata);
      if done {
        return;
      }
      completion := Some(summary);
      verdict := v;
      done := true;
      points := returned;
    }

    method Cancel()
      modifies `cancelled, `destroyed, `completion, `done
      ensures Abs() == CancelOp(old(Abs()))
    {
      if !done {
        cancelled := true;
        destroyed := true;
        completion := Some(FAILURE_NO_COMMS);
        done := true;
      }
    }

    method GetOutcome() returns (outcome: Outcome)
      ensures outcome == OutcomeOf(Abs())
    {
      if !done || completion.None? {
        return Undecided(started);
      }
      var returned := |verdict.items|;
      var allPointsSuccess := returned == |commands| && verdict.success == |commands|;
      var taskFailed := completion.value != SUCCESS || cancelled;
      var uncertain := (started && taskFailed) || verdict.manual > 0 || verdict.errors > 0;
      var allSuccess := completion.value == SUCCESS && allPointsSuccess && !cancelled && verdict.errors == 0;
      var report := Report(taskId, mode, completion.value, started, destroyed, allSuccess, uncertain, verdict.items,
                           |commands|, returned, verdict.success, returned - verdict.success);
      if taskFailed {
        return Failed(if completion.value == FAILURE_RESPONSE_TIMEOUT then RESPONSE_TIMEOUT else COMMAND_FAILED,
                      uncertain, report);
      }
      if returned != |commands| || verdict.errors > 0 {
        return Uncorrelated(report.(uncertain := true));
      }
      outcome := Success(report);
    }
  }

  // ------------------------------------------------------------- the client's checks

  const STATUS_NAMES: map<nat, string> := map[
    0 := "SUCCESS", 1 := "TIMEOUT", 2 := "NO_SELECT", 3 := "FORMAT_ERROR", 4 := "NOT_SUPPORTED",
    5 := "ALREADY_ACTIVE", 6 := "HARDWARE_ERROR", 7 := "LOCAL", 8 := "TOO_MANY_OBJS", 9 := "NOT_AUTHORIZED",
    10 := "AUTOMATION_INHIBIT", 11 := "PROCESSING_LIMITED", 12 := "OUT_OF_RANGE", 126 := "NON_PARTICIPATING",
    127 := "UNDEFINED"]

  function ClientStatusName(raw: nat): string {
    if raw in STATUS_NAMES then STATUS_NAMES[raw] else "RESERVED"
  }

  lemma {:induction false} StatusNamesAgree(raw: nat)
    ensures ClientStatusName(raw) == StatusName(raw)
  {
    if raw > 12 && raw != 126 && raw != 127 { assert raw !in STATUS_NAMES; }
  }

  /** `CommandPointResult.from_mapping`. */
  predicate PointAccepted(item: Item) {
    && item.statusRaw <= 127 && item.status == ClientStatusName(item.statusRaw)
    && item.reserved == (13 <= item.statusRaw <= 125) && item.unambiguous == (item.statusRaw != 127)
  }

  function Successes(items: seq<Item>): nat {
    if items == [] then 0
    else
      var last := items[|items| - 1];
      Successes(items[..|items| - 1]) + (if last.state == PointSuccess && last.statusRaw == 0 then 1 else 0)
  }

  predicate PointKeysDiffer(items: seq<Item>) {
    forall i, j :: 0 <= i < j < |items| ==> items[i].header != items[j].header || items[i].index != items[j].index
  }

  /** `CommandTaskResult.from_mapping`. */
  predicate FromMappingAccepts(r: Report) {
    && r.taskId > 0
    && (forall i :: 0 <= i < |r.items| ==> PointAccepted(r.items[i]))
    && r.failed >= 0 && r.returned == |r.items| && r.successful + r.failed == r.returned
    && Successes(r.items) == r.successful
    && r.allSuccess == (r.status == SUCCESS && r.started && r.requested == |r.items| && r.successful == |r.items|)
    && PointKeysDiffer(r.items)
  }

  predicate NeedsManualReadback(item: Item) {
    item.statusRaw == 1 || 13 <= item.statusRaw <= 125 || !item.unambiguous
  }

  // ------------------------------------------------------------- what a result means

  ghost predicate OpOk(o: Op) {
    && o.taskId > 0 && GoodBatch(o.commands) && o.metadata == MetadataOf(o.commands)
    && LibraryPoints(o.points) && o.verdict == VerdictOf(o.points, o.metadata)
    && (o.done <==> o.completion.Some?)
  }

  /** A batch in which everything succeeded is never called uncertain. */
  lemma {:induction false} AllSuccessIsCertain(o: Op)
    requires OpOk(o) && AllSuccess(o)
    ensures !Uncertain(o)
  {
    CountsAre(o.points, o.metadata);
  }

  /**
   * The host reports success exactly when the operation succeeded and the returned points are a
   * permutation of the requests, the same condition the client checks.
   */
  lemma {:induction false} SuccessIsPermutation(o: Op)
    requires OpOk(o)
    ensures OutcomeOf(o).Success? <==>
            o.completion == Some(SUCCESS) && !o.cancelled && OneToOne(o.commands, o.verdict.items)
    ensures OutcomeOf(o).Success? ==> OutcomeOf(o).report.mode == o.mode && OutcomeOf(o).report.items == o.verdict.items
  {
    CountDecidesCorrelation(o.commands, o.metadata, o.points);
  }

  lemma {:induction false} SuccessesCounted(points: seq<Point>, metadata: map<nat, Request>)
    ensures Successes(VerdictOf(points, metadata).items) == VerdictOf(points, metadata).success
  {
    if points != [] {
      var n := |points| - 1;
      SuccessesCounted(points[..n], metadata);
      var items := VerdictOf(points, metadata).items;
      assert items[..n] == VerdictOf(points[..n], metadata).items;
    }
  }

  lemma {:induction false} CorrelatedKeysDiffer(o: Op)
    requires OpOk(o) && o.verdict.errors == 0
    ensures PointKeysDiffer(o.verdict.items)
  {
    ErrorsAre(o.points, o.metadata);
    var items := o.verdict.items;
    forall i, j | 0 <= i < j < |items| ensures items[i].header != items[j].header || items[i].index != items[j].index {
      assert KeyAt(o.points, i) != KeyAt(o.points, j);
    }
  }

  /**
   * The client accepts a success report of the host unless every point succeeded in an operation that
   * never reported its start; that one it always refuses.
   */
  lemma {:induction false} ClientAcceptsSuccess(o: Op)
    requires OpOk(o) && OutcomeOf(o).Success?
    ensures FromMappingAccepts(OutcomeOf(o).report) <==> o.started || !AllPointsSuccess(o)
  {
    var r := OutcomeOf(o).report;
    CountsAre(o.points, o.metadata);
    SuccessesCounted(o.points, o.metadata);
    CorrelatedKeysDiffer(o);
    forall i | 0 <= i < |r.items| ensures PointAccepted(r.items[i]) { StatusNamesAgree(r.items[i].statusRaw); }
  }

  lemma {:induction false} OneCommand()
    ensures MetadataOf([Command(Crob, 7)]) == map[7 := Request(0, Crob, 7)]
  {
    var commands := [Command(Crob, 7)];
    assert KeyOf(commands, 0) == 7;
    OwnerIsFirst(commands, 0);
  }

  lemma {:induction false} OneSuccess(p: Point, metadata: map<nat, Request>)
    requires Succeeded(p) && PointKey(p.header, p.index) in metadata
    ensures VerdictOf([p], metadata) == Verdict([ItemOf(p, metadata)], 1, 0, 0)
  {
    assert [p][..0] == [] && KeysBefore([p], 0) == {};
  }

  /**
   * What the client's check guards against: a library that returned a result without ever reporting
   * the start would have a batch that is a success for the host and refused by the client.
   */
  lemma {:induction false} SuccessWithoutStart()
    ensures var o := Complete(NewOp(1, DirectOperate, [Command(Crob, 7)]), SUCCESS, [Point(0, 7, PointSuccess, 0)]);
            OpOk(o) && OutcomeOf(o).Success? && AllSuccess(o) && !FromMappingAccepts(OutcomeOf(o).report)
  {
    var o := Complete(NewOp(1, DirectOperate, [Command(Crob, 7)]), SUCCESS, [Point(0, 7, PointSuccess, 0)]);
    OneCommand();
    OneSuccess(Point(0, 7, PointSuccess, 0), o.metadata);
    ClientAcceptsSuccess(o);
  }

  /** Whether the reply tells the client that the outcome is uncertain. */
  predicate MarkedUncertain(outcome: Outcome) {
    match outcome
    case Undecided(_) => true
    case Failed(code, uncertain, _) => uncertain || code == RESPONSE_TIMEOUT
    case Uncorrelated(_) => true
    case Success(report) =>
      report.uncertain || exists i :: 0 <= i < |report.items| && NeedsManualReadback(report.items[i])
  }

  /** A failure that is not marked comes from a task that had not started and returned no doubtful point. */
  lemma {:induction false} UnmarkedFailureNeverStarted(o: Op)
    requires OpOk(o) && !MarkedUncertain(OutcomeOf(o)) && !OutcomeOf(o).Success?
    ensures o.done && !o.started && o.verdict.errors == 0
            && forall i :: 0 <= i < |o.points| ==> !NeedsReadback(o.points[i].statusRaw)
  {
    CountsAre(o.points, o.metadata);
  }

  // ------------------------------------------------------------- every outcome, both ways

  /** Some returned point is doubtful, was not requested, or repeats another. */
  ghost predicate PointsDoubtful(o: Op) {
    || (exists i :: 0 <= i < |o.points| && NeedsReadback(o.points[i].statusRaw))
    || !KeysKnown(o.points, |o.points|, o.metadata) || !KeysDiffer(o.points, |o.points|)
  }

  lemma {:induction false} DoubtIsCounted(o: Op)
    requires OpOk(o)
    ensures o.verdict.manual > 0 || o.verdict.errors > 0 <==> PointsDoubtful(o)
  {
    CountsAre(o.points, o.metadata);
    ErrorsAre(o.points, o.metadata);
  }

  /** The operation was decided, and not by a success. */
  predicate DecidedAsFailed(o: Op) {
    o.done && (o.completion != Some(SUCCESS) || o.cancelled)
  }

  /**
   * Which of the four outcomes an operation has: undecided until it is done; failed if it was decided
   * without a success; otherwise a success exactly if its points correspond one to one to the requests.
   */
  lemma {:induction false} OutcomeExactly(o: Op)
    requires OpOk(o)
    ensures OutcomeOf(o).Undecided? <==> !o.done
    ensures OutcomeOf(o).Failed? <==> DecidedAsFailed(o)
    ensures OutcomeOf(o).Success? <==> o.done && !DecidedAsFailed(o) && OneToOne(o.commands, o.verdict.items)
    ensures OutcomeOf(o).Uncorrelated? <==> o.done && !DecidedAsFailed(o) && !OneToOne(o.commands, o.verdict.items)
    ensures OutcomeOf(o).Undecided? ==> OutcomeOf(o).started == o.started
  {
    SuccessIsPermutation(o);
  }

  /**
   * A failure is a response timeout exactly if the task ended with one, and is called uncertain
   * exactly if the task had started or some returned point is doubtful, unrequested or repeated.
   */
  lemma {:induction false} FailureExactly(o: Op)
    requires OpOk(o) && DecidedAsFailed(o)
    ensures var f := OutcomeOf(o);
            && f.Failed? && (f.code == RESPONSE_TIMEOUT <==> o.completion == Some(FAILURE_RESPONSE_TIMEOUT))
            && (f.code == COMMAND_FAILED <==> o.completion != Some(FAILURE_RESPONSE_TIMEOUT))
            && (f.uncertain <==> o.started || PointsDoubtful(o))
            && (MarkedUncertain(f) <==>
                  o.completion == Some(FAILURE_RESPONSE_TIMEOUT) || o.started || PointsDoubtful(o))
  {
    DoubtIsCounted(o);
  }

  /** A success is called uncertain, or names a point for readback, exactly if some point is doubtful. */
  lemma {:induction false} SuccessExactly(o: Op)
    requires OpOk(o) && OutcomeOf(o).Success?
    ensures var r := OutcomeOf(o).report;
            && (r.uncertain <==> exists i :: 0 <= i < |o.points| && NeedsReadback(o.points[i].statusRaw))
            && (MarkedUncertain(OutcomeOf(o)) <==> r.uncertain)
            && (r.allSuccess <==> forall i :: 0 <= i < |o.points| ==> Succeeded(o.points[i]))
  {
    CountsAre(o.points, o.metadata);
    forall i | 0 <= i < |o.points|
      ensures NeedsManualReadback(OutcomeOf(o).report.items[i]) <==> NeedsReadback(o.points[i].statusRaw)
    {
      assert OutcomeOf(o).report.items[i] == ItemOf(o.points[i], o.metadata);
    }
  }

  /** What every report says of its operation. */
  lemma {:induction false} ReportTells(o: Op)
    requires OpOk(o) && o.done
    ensures var f := OutcomeOf(o);
            && !f.Undecided? && f.report.taskId == o.taskId && f.report.mode == o.mode && f.report.items == o.verdict.items
            && Some(f.report.status) == o.completion && f.report.started == o.started && f.report.destroyed == o.destroyed
            && f.report.requested == |o.commands| && f.report.returned == |o.points|
            && (f.Uncorrelated? ==> f.report.uncertain) && (f.Failed? ==> f.report.uncertain == f.uncertain)
  {
  }

  // ------------------------------------------------------------- all the threads

  datatype Api =
    | Free | Submitting(id: nat) | Waiting(id: nat) | Reporting(id: nat) | Reported(id: nat)
    | Thrown(id: nat) | Clearing(id: nat) | Cancelling(id: nat)

  datatype Reply = AlreadyExecuting(active: nat) | Answered(id: nat, outcome: Outcome)

  datatype State = State(ops: seq<Op>, active: Option<nat>, api: Api, replies: seq<Reply>)

  const START := State([], None, Free, [])

  datatype Event =
    | Execute(mode: Mode, commands: seq<Command>)
    | Submit | SubmitThrows | HandleThrow | WaitReturns | Answer | CheckDone | Clear
    | CancelGrabs | CancelFires
    | OnStart(id: nat) | OnComplete(id: nat, c: Completion) | OnDestroyed(id: nat)
    | OnResult(id: nat, summary: Completion, points: seq<Point>)

  function With(s: State, id: nat, o: Op): State
    requires id < |s.ops|
  {
    s.(ops := s.ops[id := o])
  }

  predicate Named(s: State) {
    (s.active.Some? ==> s.active.value < |s.ops|) && (!s.api.Free? ==> s.api.id < |s.ops|)
  }

  function CallbackOf(o: Op, e: Event): Op {
    match e
    case OnStart(_) => o.(started := true)
    case OnComplete(_, c) => o.(callback := Some(c))
    case OnDestroyed(_) => Destroy(o)
    case OnResult(_, summary, points) => Complete(o, summary, points)
    case _ => o
  }

  predicate IsCallback(e: Event) {
    e.OnStart? || e.OnComplete? || e.OnDestroyed? || e.OnResult?
  }

  function ApiStep(s: State, e: Event): (t: State)
    requires Named(s)
    ensures Named(t) && |s.ops| <= |t.ops|
  {
    match s.api
    case Free =>
      if e.Execute? then
        if s.active.Some? && !s.ops[s.active.value].done
        then s.(replies := s.replies + [AlreadyExecuting(s.active.value)])
        else s.(ops := s.ops + [NewOp(|s.ops| + 1, e.mode, e.commands)], active := Some(|s.ops|),
                api := Submitting(|s.ops|))
      else if e.CancelGrabs? && s.active.Some? then s.(active := None, api := Cancelling(s.active.value))
      else s
    case Submitting(id) =>
      if e.Submit? then s.(api := Waiting(id)) else if e.SubmitThrows? then s.(api := Thrown(id)) else s
    case Thrown(id) => if e.HandleThrow? then With(s, id, CancelOp(s.ops[id])).(api := Clearing(id)) else s
    case Waiting(id) => if e.WaitReturns? then s.(api := Reporting(id)) else s
    case Reporting(id) =>
      if e.Answer? then s.(replies := s.replies + [Answered(id, OutcomeOf(s.ops[id]))], api := Reported(id)) else s
    case Reported(id) => if !e.CheckDone? then s else s.(api := if s.ops[id].done then Clearing(id) else Free)
    case Clearing(id) =>
      if e.Clear? then s.(active := if s.active == Some(id) then None else s.active, api := Free) else s
    case Cancelling(id) => if e.CancelFires? then With(s, id, CancelOp(s.ops[id])).(api := Free) else s
  }

  function Step(s: State, e: Event): (t: State)
    requires Named(s)
    ensures Named(t) && |s.ops| <= |t.ops|
  {
    if !IsCallback(e) then ApiStep(s, e)
    else if e.id < |s.ops| then With(s, e.id, CallbackOf(s.ops[e.id], e))
    else s
  }

  function RunFrom(s: State, events: seq<Event>): (t: State)
    requires Named(s)
    ensures Named(t) && |s.ops| <= |t.ops|
  {
    if events == [] then s else Step(RunFrom(s, events[..|events| - 1]), events[|events| - 1])
  }

  /** Batches come from the parser; points fit their wire fields. */
  ghost predicate GoodEvents(events: seq<Event>) {
    forall i :: 0 <= i < |events| ==> GoodEvent(events[i])
  }

  ghost predicate GoodEvent(e: Event) {
    (e.Execute? ==> GoodBatch(e.commands)) && (e.OnResult? ==> LibraryPoints(e.points))
  }

  // ------------------------------------------------------------- what the steps do

  /** The first result decides an undecided operation, with its points. */
  lemma {:induction false} ResultDecides(s: State, id: nat, c: Completion, points: seq<Point>)
    requires Named(s) && id < |s.ops| && !s.ops[id].done
    ensures var o := Step(s, OnResult(id, c, points)).ops[id];
            o.done && o.completion == Some(c) && o.points == points && o.verdict == VerdictOf(points, s.ops[id].metadata)
  {
  }

  /** A start or a completion is only noted; a destruction decides exactly if a completion was noted. */
  lemma {:induction false} DestructionDecides(s: State, id: nat, c: Completion)
    requires Named(s) && id < |s.ops| && !s.ops[id].done
    ensures var o := Step(s, OnComplete(id, c)).ops[id]; !o.done && o.callback == Some(c)
    ensures var o := Step(s, OnStart(id)).ops[id]; !o.done && o.started
    ensures var o := Step(s, OnDestroyed(id)).ops[id];
            && o.destroyed && (o.done <==> s.ops[id].callback.Some?)
            && (o.done ==> o.completion == s.ops[id].callback)
  {
  }

  lemma {:induction false} CancelDecides(s: State, e: Event)
    requires Named(s) && ((s.api.Thrown? && e.HandleThrow?) || (s.api.Cancelling? && e.CancelFires?))
    ensures var o, p := s.ops[s.api.id], Step(s, e).ops[s.api.id];
            && p.done
            && (!o.done ==> p.cancelled && p.destroyed && p.completion == Some(FAILURE_NO_COMMS) && DecidedAsFailed(p))
            && (o.done ==> p == o)
  {
  }

  /** A submission starts an operation exactly when none is undecided. */
  lemma {:induction false} ExecuteStartsExactly(s: State, mode: Mode, commands: seq<Command>)
    requires Named(s) && s.api.Free?
    ensures var t := Step(s, Execute(mode, commands));
            && (s.active.Some? && !s.ops[s.active.value].done ==>
                  t == s.(replies := s.replies + [AlreadyExecuting(s.active.value)]))
            && (s.active.None? || s.ops[s.active.value].done ==>
                  && |t.ops| == |s.ops| + 1 && t.ops[..|s.ops|] == s.ops && t.active == Some(|s.ops|)
                  && t.replies == s.replies && !t.ops[|s.ops|].done && !t.ops[|s.ops|].started
                  && t.ops[|s.ops|].mode == mode && t.ops[|s.ops|].commands == commands
                  && t.ops[|s.ops|].taskId == |s.ops| + 1)
  {
  }

  /** Cancelling the active operation decides it if it is undecided, and frees the API. */
  lemma {:induction false} CancelFreesApi(s: State)
    requires Named(s) && s.api.Free? && s.active.Some?
    ensures var id := s.active.value;
            var t := Step(Step(s, CancelGrabs), CancelFires);
            && t.api.Free? && t.active.None? && t.replies == s.replies && t.ops[id].done
            && t.ops[id] == CancelOp(s.ops[id])
  {
    assert Step(s, CancelGrabs).api == Cancelling(s.active.value);
  }

  /** A call that has answered frees the API, and clears its operation exactly if it is decided. */
  lemma {:induction false} AnsweredFreesApi(s: State)
    requires Named(s) && s.api.Reported?
    ensures var t := Step(s, CheckDone);
            && (!s.ops[s.api.id].done ==> t == s.(api := Free))
            && (s.ops[s.api.id].done ==>
                  var u := Step(t, Clear);
                  u.api.Free? && u.active != Some(s.api.id) && u.ops == s.ops && u.replies == s.replies)
  {
    if s.ops[s.api.id].done { assert Step(s, CheckDone).api == Clearing(s.api.id); }
  }

  function Alone(o: Op, api: Api): State {
    State([o], Some(0), api, [])
  }

  lemma {:induction false} SubmittedWaits(mode: Mode, commands: seq<Command>)
    ensures Step(Step(START, Execute(mode, commands)), Submit) == Alone(NewOp(1, mode, commands), Waiting(0))
  {
    assert Step(START, Execute(mode, commands)) == Alone(NewOp(1, mode, commands), Submitting(0));
  }

  lemma {:induction false} LibraryDecides(o: Op, points: seq<Point>)
    ensures Step(Step(Alone(o, Waiting(0)), OnStart(0)), OnResult(0, SUCCESS, points))
            == Alone(Complete(o.(started := true), SUCCESS, points), Waiting(0))
  {
    assert Step(Alone(o, Waiting(0)), OnStart(0)) == Alone(o.(started := true), Waiting(0));
  }

  lemma {:induction false} WaitingAnswers(o: Op)
    ensures Step(Step(Alone(o, Waiting(0)), WaitReturns), Answer)
            == Alone(o, Reported(0)).(replies := [Answered(0, OutcomeOf(o))])
  {
    assert Step(Alone(o, Waiting(0)), WaitReturns) == Alone(o, Reporting(0));
  }

  /** The way of a call from its submission to its reply, with the result of the library in between. */
  lemma {:induction false} CallAnswersResult(mode: Mode, commands: seq<Command>, points: seq<Point>)
    ensures var s := Step(Step(Step(Step(START, Execute(mode, commands)), Submit), OnStart(0)), OnResult(0, SUCCESS, points));
            var o := Complete(NewOp(1, mode, commands).(started := true), SUCCESS, points);
            Step(Step(s, WaitReturns), Answer) == Alone(o, Reported(0)).(replies := [Answered(0, OutcomeOf(o))])
  {
    SubmittedWaits(mode, commands);
    LibraryDecides(NewOp(1, mode, commands), points);
    WaitingAnswers(Complete(NewOp(1, mode, commands).(started := true), SUCCESS, points));
  }

  /** The reply is the outcome the operation has at that moment. */
  lemma {:induction false} AnswerTells(s: State)
    requires Named(s) && s.api.Reporting?
    ensures Step(s, Answer).replies == s.replies + [Answered(s.api.id, OutcomeOf(s.ops[s.api.id]))]
    ensures Step(s, Answer).ops == s.ops
  {
  }

  // ------------------------------------------------------------- single flight, frozen verdict

  /** Everything the verdict consists of stands once the operation is decided. */
  predicate Frozen(o: Op, p: Op) {
    o.done ==> p.done && p.completion == o.completion && p.verdict == o.verdict && p.cancelled == o.cancelled
               && p.commands == o.commands && AllSuccess(p) == AllSuccess(o)
  }

  lemma {:induction false} StepFreezes(s: State, e: Event, id: nat)
    requires Named(s) && id < |s.ops|
    ensures Frozen(s.ops[id], Step(s, e).ops[id])
  {
  }

  /** No later callback, call or cancel changes a decided operation's completion, points or all_success. */
  lemma {:induction false} VerdictStands(s: State, events: seq<Event>, id: nat)
    requires Named(s) && id < |s.ops|
    ensures Frozen(s.ops[id], RunFrom(s, events).ops[id])
  {
    if events != [] {
      VerdictStands(s, events[..|events| - 1], id);
      StepFreezes(RunFrom(s, events[..|events| - 1]), events[|events| - 1], id);
    }
  }

  /** An undecided operation is the active one, or the one being cancelled by the only RPC thread. */
  ghost predicate SingleFlight(s: State)
    requires Named(s)
  {
    && (forall id :: 0 <= id < |s.ops| && !s.ops[id].done ==> s.active == Some(id) || s.api == Cancelling(id))
    && (s.api.Cancelling? ==> s.active.None?)
    && (s.api.Clearing? ==> s.ops[s.api.id].done)
  }

  ghost predicate OpsOk(s: State) {
    forall id :: 0 <= id < |s.ops| ==> OpOk(s.ops[id])
  }

  ghost predicate Inv(s: State) {
    Named(s) && SingleFlight(s) && OpsOk(s)
  }

  lemma {:induction false} CallbackKeeps(o: Op, e: Event)
    requires OpOk(o) && GoodEvent(e)
    ensures OpOk(CallbackOf(o, e)) && OpOk(CancelOp(o))
    ensures o.done ==> CallbackOf(o, e).done
  {
  }

  lemma {:induction false} ApiStepOnOps(s: State, e: Event)
    requires Named(s)
    ensures var t := ApiStep(s, e);
            || t.ops == s.ops
            || (s.api.Free? && e.Execute? && t.ops == s.ops + [NewOp(|s.ops| + 1, e.mode, e.commands)])
            || (!s.api.Free? && t.ops == s.ops[s.api.id := CancelOp(s.ops[s.api.id])])
  {
  }

  lemma {:induction false} ApiKeepsOps(s: State, e: Event)
    requires Named(s) && OpsOk(s) && GoodEvent(e)
    ensures OpsOk(ApiStep(s, e))
  {
    ApiStepOnOps(s, e);
    var t := ApiStep(s, e);
    forall id | 0 <= id < |t.ops| ensures OpOk(t.ops[id]) {
      if id < |s.ops| { CallbackKeeps(s.ops[id], e); } else { NewOpKeeps(|s.ops| + 1, e.mode, e.commands); }
    }
  }

  lemma {:induction false} NewOpKeeps(taskId: nat, mode: Mode, commands: seq<Command>)
    requires taskId > 0 && GoodBatch(commands)
    ensures OpOk(NewOp(taskId, mode, commands))
  {
  }

  lemma {:induction false} IdleOpsAreDone(s: State, e: Event)
    requires Named(s) && SingleFlight(s)
    ensures var t := ApiStep(s, e);
            forall id :: 0 <= id < |t.ops| && !t.ops[id].done ==> t.active == Some(id) || t.api == Cancelling(id)
  {
    ApiStepOnOps(s, e);
    var t := ApiStep(s, e);
    forall id | 0 <= id < |t.ops| && !t.ops[id].done ensures t.active == Some(id) || t.api == Cancelling(id) {
      assert id < |s.ops| ==> !s.ops[id].done;
    }
  }

  lemma {:induction false} ApiKeepsFlight(s: State, e: Event)
    requires Named(s) && SingleFlight(s)
    ensures SingleFlight(ApiStep(s, e))
  {
    IdleOpsAreDone(s, e);
    ApiStepOnOps(s, e);
  }

  lemma {:induction false} CallbackKeepsFlight(s: State, e: Event)
    requires Named(s) && SingleFlight(s) && IsCallback(e)
    ensures SingleFlight(Step(s, e))
  {
    var t := Step(s, e);
    forall id | 0 <= id < |t.ops| ensures s.ops[id].done ==> t.ops[id].done { StepFreezes(s, e, id); }
  }

  lemma {:induction false} StepKeeps(s: State, e: Event)
    requires Inv(s) && GoodEvent(e)
    ensures Inv(Step(s, e))
  {
    if !IsCallback(e) {
      ApiKeepsOps(s, e);
      ApiKeepsFlight(s, e);
    } else {
      CallbackKeepsFlight(s, e);
      CallbackKeepsOps(s, e);
    }
  }

  lemma {:induction false} CallbackKeepsOps(s: State, e: Event)
    requires Named(s) && OpsOk(s) && IsCallback(e) && GoodEvent(e)
    ensures OpsOk(Step(s, e))
  {
    var t := Step(s, e);
    forall id | 0 <= id < |t.ops| ensures OpOk(t.ops[id]) {
      assert OpOk(s.ops[id]);
      CallbackKeeps(s.ops[id], e);
      assert t.ops[id] == s.ops[id] || t.ops[id] == CallbackOf(s.ops[id], e);
    }
  }

  lemma {:induction false} RunKeeps(events: seq<Event>)
    requires GoodEvents(events)
    ensures Inv(RunFrom(START, events))
  {
    if events != [] {
      var head := events[..|events| - 1];
      assert GoodEvents(head) && GoodEvent(events[|events| - 1]);
      RunKeeps(head);
      StepKeeps(RunFrom(START, head), events[|events| - 1]);
    }
  }

  /**
   * Single flight: at most one operation is undecided, and while one is, every submission is
   * refused and starts nothing, even long after the wait of the undecided one has timed out.
   */
  lemma {:induction false} UndecidedMeansRefused(events: seq<Event>, id: nat, mode: Mode, commands: seq<Command>)
    requires GoodEvents(events)
    requires id < |RunFrom(START, events).ops| && !RunFrom(START, events).ops[id].done
    ensures var s := RunFrom(START, events);
            && (forall other :: 0 <= other < |s.ops| && other != id ==> s.ops[other].done)
            && (s.api.Free? ==> var t := Step(s, Execute(mode, commands));
                  t == s.(replies := s.replies + [AlreadyExecuting(id)]))
  {
    RunKeeps(events);
  }

  /** A success that was answered is a permutation of its request, and no later step changes that. */
  predicate Sound(r: Reply, s: State) {
    r.Answered? && r.outcome.Success? ==>
      && r.id < |s.ops| && s.ops[r.id].done
      && OneToOne(s.ops[r.id].commands, r.outcome.report.items)
      && r.outcome.report.items == s.ops[r.id].verdict.items
      && (r.outcome.report.allSuccess ==> !r.outcome.report.uncertain)
      && (FromMappingAccepts(r.outcome.report) <==> r.outcome.report.started || !AllPointsSuccess(s.ops[r.id]))
  }

  lemma {:induction false} SoundStays(s: State, e: Event, r: Reply)
    requires Named(s) && Sound(r, s)
    ensures Sound(r, Step(s, e))
  {
    if r.Answered? && r.outcome.Success? { StepFreezes(s, e, r.id); }
  }

  /** A state answers at most one call more than the one before, and that answer is sound. */
  ghost predicate AddsSound(s: State, t: State) {
    t.replies == s.replies
    || (|t.replies| == |s.replies| + 1 && t.replies[..|s.replies|] == s.replies
        && Sound(t.replies[|s.replies|], t))
  }

  lemma {:induction false} NewReply(s: State, e: Event)
    requires Inv(s)
    ensures AddsSound(s, Step(s, e))
  {
    if s.api.Reporting? && e.Answer? && OutcomeOf(s.ops[s.api.id]).Success? { NewAnswer(s.ops[s.api.id]); }
  }

  lemma {:induction false} RepliesStaySound(s: State, t: State, k: nat)
    requires AddsSound(s, t) && k < |t.replies|
    requires k < |s.replies| ==> Sound(s.replies[k], t)
    ensures Sound(t.replies[k], t)
  {
    if k < |s.replies| { assert t.replies[..|s.replies|][k] == s.replies[k]; }
  }

  ghost predicate AllSound(s: State) {
    forall k :: 0 <= k < |s.replies| ==> Sound(s.replies[k], s)
  }

  lemma {:induction false} SoundAt(s: State, e: Event, k: nat)
    requires Inv(s) && AllSound(s) && k < |Step(s, e).replies|
    ensures Sound(Step(s, e).replies[k], Step(s, e))
  {
    NewReply(s, e);
    if k < |s.replies| { SoundStays(s, e, s.replies[k]); }
    RepliesStaySound(s, Step(s, e), k);
  }

  lemma {:induction false} StepKeepsSound(s: State, e: Event)
    requires Inv(s) && AllSound(s)
    ensures AllSound(Step(s, e))
  {
    forall k | 0 <= k < |Step(s, e).replies| ensures Sound(Step(s, e).replies[k], Step(s, e)) { SoundAt(s, e, k); }
  }

  /** Every success the host answers is a permutation of its request. */
  lemma {:induction false} AnswersAreSound(events: seq<Event>)
    requires GoodEvents(events)
    ensures AllSound(RunFrom(START, events))
  {
    if events != [] {
      var head := events[..|events| - 1];
      assert GoodEvents(head);
      RunKeeps(head);
      AnswersAreSound(head);
      StepKeepsSound(RunFrom(START, head), events[|events| - 1]);
    }
  }

  // ------------------------------------------------------------- the library's order

  /** In this step of the run the start of operation `id` is reported. */
  predicate StartedAt(events: seq<Event>, i: nat, id: nat) {
    i < |events| && events[i] == OnStart(id) && id < |RunFrom(START, events[..i]).ops|
  }

  /** In this step of the run a successful result of operation `id` arrives. */
  predicate SucceedsAt(events: seq<Event>, j: nat, id: nat) {
    && j < |events| && events[j].OnResult? && events[j].id == id && events[j].summary == SUCCESS
    && id < |RunFrom(START, events[..j]).ops|
  }

  /** The order of the library: a task starts before a response can complete it. */
  ghost predicate StartsFirst(events: seq<Event>) {
    forall j: nat, id: nat :: SucceedsAt(events, j, id) ==> exists i: nat :: i < j && StartedAt(events, i, id)
  }

  predicate StartKnown(o: Op) {
    && (!o.done ==> o.verdict.items == [])
    && (o.completion == Some(SUCCESS) && o.verdict.items != [] ==> o.started)
  }

  predicate StartReported(r: Reply) {
    r.Answered? && r.outcome.Success? ==> r.outcome.report.started
  }

  ghost predicate AllStarted(s: State) {
    && (forall id :: 0 <= id < |s.ops| ==> StartKnown(s.ops[id]))
    && (forall k :: 0 <= k < |s.replies| ==> StartReported(s.replies[k]))
  }

  lemma {:induction false} StartIsKept(events: seq<Event>, i: nat, id: nat)
    requires StartedAt(events, i, id)
    ensures id < |RunFrom(START, events).ops| && RunFrom(START, events).ops[id].started
  {
    var n := |events| - 1;
    if i < n {
      assert events[..n][..i] == events[..i];
      StartIsKept(events[..n], i, id);
      StepKeepsStart(RunFrom(START, events[..n]), events[n], id);
    }
  }

  lemma {:induction false} StepKeepsStart(s: State, e: Event, id: nat)
    requires Named(s) && id < |s.ops| && s.ops[id].started
    ensures Step(s, e).ops[id].started
  {
  }

  lemma {:induction false} PrefixStartsFirst(events: seq<Event>, n: nat)
    requires StartsFirst(events) && n <= |events|
    ensures StartsFirst(events[..n])
  {
    forall j: nat, id: nat | SucceedsAt(events[..n], j, id) ensures exists i: nat :: i < j && StartedAt(events[..n], i, id) {
      assert events[..n][..j] == events[..j];
      assert SucceedsAt(events, j, id);
      var i: nat :| i < j && StartedAt(events, i, id);
      assert events[..n][..i] == events[..i];
      assert StartedAt(events[..n], i, id);
    }
  }

  lemma {:induction false} CallbackKeepsStarted(o: Op, e: Event)
    requires StartKnown(o) && (e.OnResult? && e.summary == SUCCESS ==> o.started) && (o.done <==> o.completion.Some?)
    ensures StartKnown(CallbackOf(o, e)) && StartKnown(CancelOp(o))
  {
  }

  lemma {:induction false} OpsKeepStarted(s: State, e: Event)
    requires Inv(s) && AllStarted(s)
    requires e.OnResult? && e.summary == SUCCESS && e.id < |s.ops| ==> s.ops[e.id].started
    ensures forall id :: 0 <= id < |Step(s, e).ops| ==> StartKnown(Step(s, e).ops[id])
  {
    ApiStepOnOps(s, e);
    var t := Step(s, e);
    forall id | 0 <= id < |t.ops| ensures StartKnown(t.ops[id]) {
      if id < |s.ops| {
        assert StartKnown(s.ops[id]) && OpOk(s.ops[id]);
        if !(IsCallback(e) && e.id != id) { CallbackKeepsStarted(s.ops[id], e); }
      }
    }
  }

  lemma {:induction false} RepliesKeepStarted(s: State, e: Event)
    requires Inv(s) && AllStarted(s)
    ensures forall k :: 0 <= k < |Step(s, e).replies| ==> StartReported(Step(s, e).replies[k])
  {
    if s.api.Reporting? && e.Answer? { assert StartKnown(s.ops[s.api.id]) && OpOk(s.ops[s.api.id]); }
  }

  /** A result that arrives last finds its operation started. */
  lemma {:induction false} LastResultStarted(events: seq<Event>, id: nat)
    requires StartsFirst(events) && events != [] && SucceedsAt(events, |events| - 1, id)
    ensures var s := RunFrom(START, events[..|events| - 1]); id < |s.ops| && s.ops[id].started
  {
    var n := |events| - 1;
    var i: nat :| i < n && StartedAt(events, i, id);
    assert events[..n][..i] == events[..i];
    StartIsKept(events[..n], i, id);
  }

  lemma {:induction false} StepKeepsStarted(s: State, e: Event)
    requires Inv(s) && AllStarted(s)
    requires e.OnResult? && e.summary == SUCCESS && e.id < |s.ops| ==> s.ops[e.id].started
    ensures AllStarted(Step(s, e))
  {
    OpsKeepStarted(s, e);
    RepliesKeepStarted(s, e);
  }

  lemma {:induction false} RunKeepsStarted(events: seq<Event>)
    requires GoodEvents(events) && StartsFirst(events)
    ensures AllStarted(RunFrom(START, events))
  {
    if events != [] {
      var n := |events| - 1;
      assert GoodEvents(events[..n]);
      PrefixStartsFirst(events, n);
      RunKeepsStarted(events[..n]);
      RunKeeps(events[..n]);
      var e := events[n];
      if e.OnResult? && e.summary == SUCCESS && e.id < |RunFrom(START, events[..n]).ops| {
        LastResultStarted(events, e.id);
      }
      StepKeepsStarted(RunFrom(START, events[..n]), e);
    }
  }

  /**
   * With a library that reports the start of a task before it delivers a successful result, the
   * client accepts every success the host answers, and its correlation check holds of it.
   */
  lemma {:induction false} StartedSuccessesAreAccepted(events: seq<Event>)
    requires GoodEvents(events) && StartsFirst(events)
    ensures var s := RunFrom(START, events);
            forall k :: 0 <= k < |s.replies| && s.replies[k].Answered? && s.replies[k].outcome.Success? ==>
              && FromMappingAccepts(s.replies[k].outcome.report) && s.replies[k].id < |s.ops|
              && OneToOne(s.ops[s.replies[k].id].commands, s.replies[k].outcome.report.items)
  {
    RunKeepsStarted(events);
    AnswersAreSound(events);
    var s := RunFrom(START, events);
    forall k | 0 <= k < |s.replies| && s.replies[k].Answered? && s.replies[k].outcome.Success?
      ensures FromMappingAccepts(s.replies[k].outcome.report) && s.replies[k].id < |s.ops|
      ensures OneToOne(s.ops[s.replies[k].id].commands, s.replies[k].outcome.report.items)
    {
      assert StartReported(s.replies[k]) && Sound(s.replies[k], s);
    }
  }

  lemma {:induction false} NewAnswer(o: Op)
    requires OpOk(o) && OutcomeOf(o).Success?
    ensures OneToOne(o.commands, OutcomeOf(o).report.items) && OutcomeOf(o).report.items == o.verdict.items
    ensures OutcomeOf(o).report.allSuccess ==> !OutcomeOf(o).report.uncertain
    ensures FromMappingAccepts(OutcomeOf(o).report) <==> OutcomeOf(o).report.started || !AllPointsSuccess(o)
  {
    SuccessIsPermutation(o);
    ClientAcceptsSuccess(o);
    if AllSuccess(o) { AllSuccessIsCertain(o); }
  }
}
