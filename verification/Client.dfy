// The Python client's control path: whatever ends a control request, the client either has a
// fully correlated answer, or a plain refusal, or locks itself and the device.

module Client {
  import opened Commands
  import opened CommandTask
  import opened Common
  import opened Incidents
  import opened IncidentStore

  datatype SessionState = NEW | RUNNING | BROKEN | CLOSED

  /** A member of `details` as Python sees it. */
  datatype Flag = Missing | IsTrue | Other(truthy: bool)

  /** How one exchange with the host ends. */
  datatype Ending =
    | NotSent
    | ExitedBefore
    | TimedOut
    | Exited
    | ProtocolViolated
    | NotAnObject
    | Refused(code: string, uncertain: Flag, mayExecute: Flag)
    | Answered(report: Option<Report>)
    | Interrupted(started: bool)

  /** What the environment contributes to a command call. */
  datatype Env = Env(
    argumentsOk: bool, ending: Ending, luck: Luck, cleaned: bool, incident: nat, inode: nat, payloadSha: string,
    requestId: string)

  /** `files` is the incident directory, `None` if none is configured; no step reads `sent`. */
  datatype Session = Session(
    state: SessionState, token: Option<string>, simulator: bool, dut: Option<string>, files: Option<Files>,
    sent: seq<Mode>)

  datatype Ended = SimulatorEnded | LockedBy(doc: Doc) | NotPersisted

  datatype CallEnd =
    | Locked | BadArguments | Unconfigured | Unresolved | NotRunning | Unsent
    | Completed(report: Report)
    | HostRefused(code: string, uncertain: Flag, mayExecute: Flag)
    | Uncertain(code: string, how: Ended)
    | Interrupt(handled: Option<Ended>)

  // ------------------------------------------------------------- pieces

  function Abort(c: Session): Session {
    c.(state := BROKEN, token := None)
  }

  function KindName(kind: Kind): string {
    match kind
    case Crob => "crob"
    case Int16 => "analog_output_int16"
    case Int32 => "analog_output_int32"
    case Float32 => "analog_output_float32"
    case Double64 => "analog_output_double64"
  }

  function PointsOf(commands: seq<Command>): seq<(string, nat)> {
    seq(|commands|, i requires 0 <= i < |commands| => (KindName(commands[i].kind), commands[i].index))
  }

  function OperationName(mode: Mode): string {
    if mode == SelectAndOperate then "select_and_operate" else "direct_operate"
  }

  function BodyOf(mode: Mode, commands: seq<Command>, env: Env, code: string, requestId: string,
                  uncertain: bool, mayExecute: bool): Body {
    Body(OperationName(mode), PointsOf(commands), env.payloadSha, code, requestId, uncertain, mayExecute)
  }

  /** `_handle_uncertain_command`: lock the device, whatever happens drop the token and the process. */
  function Handle(c: Session, body: Body, env: Env): (Session, Ended) {
    if c.simulator then (Abort(c), SimulatorEnded)
    else if c.files.None? || c.dut.None? then (Abort(c), NotPersisted)
    else
      var locked := Lock(c.files.value, env.inode, c.dut.value, body, env.incident, env.luck, env.cleaned);
      (Abort(c.(files := Some(locked.0))),
       if locked.1.LockRecord? then LockedBy(locked.1.doc) else NotPersisted)
  }

  predicate SaysUncertain(code: string, uncertain: Flag, mayExecute: Flag) {
    code == "RESPONSE_TIMEOUT" || uncertain.IsTrue? || mayExecute.IsTrue?
  }

  /** `bool(details.get(name, True))`. */
  function Truth(f: Flag): bool {
    match f
    case Missing => true
    case IsTrue => true
    case Other(truthy) => truthy
  }

  predicate ValidResult(mode: Mode, commands: seq<Command>, report: Option<Report>) {
    report.Some? && FromMappingAccepts(report.value) && report.value.mode == mode
    && OneToOne(commands, report.value.items)
  }

  predicate Doubtful(report: Report) {
    report.uncertain || exists i :: 0 <= i < |report.items| && NeedsManualReadback(report.items[i])
  }

  const INTERRUPT_CODE := "KEYBOARDINTERRUPT"

  function UncertainEnd(c: Session, mode: Mode, commands: seq<Command>, env: Env, code: string, requestId: string,
                        uncertain: bool, mayExecute: bool): (Session, CallEnd) {
    var handled := Handle(c, BodyOf(mode, commands, env, code, requestId, uncertain, mayExecute), env);
    (handled.0, CallEnd.Uncertain(code, handled.1))
  }

  /** What the client makes of a reply. */
  function JudgeReply(s: Session, mode: Mode, commands: seq<Command>, env: Env): (Session, CallEnd)
    requires env.ending.Refused? || env.ending.Answered?
  {
    match env.ending
    case Refused(code, uncertain, mayExecute) =>
      if SaysUncertain(code, uncertain, mayExecute)
      then UncertainEnd(s, mode, commands, env, code, env.requestId, Truth(uncertain), Truth(mayExecute))
      else (s, HostRefused(code, uncertain, mayExecute))
    case Answered(report) =>
      if !ValidResult(mode, commands, report)
      then UncertainEnd(s, mode, commands, env, "INVALID_COMMAND_RESULT", "invalid-command-result", true, true)
      else if Doubtful(report.value)
      then UncertainEnd(s, mode, commands, env, "UNCERTAIN_COMMAND_RESULT", "command-task", true, true)
      else (s, Completed(report.value))
  }

  /** `_execute_command_task` and the interrupt handler around it. */
  function ExecuteControl(c: Session, mode: Mode, commands: seq<Command>, env: Env): (Session, CallEnd) {
    var s := c.(sent := c.sent + [mode]);
    match env.ending
    case NotSent => (c, Unsent)
    case ExitedBefore =>
      UncertainEnd(Abort(c), mode, commands, env, "HOSTEXITEDERROR", "python-host-exchange", true, true)
    case TimedOut =>
      UncertainEnd(Abort(s), mode, commands, env, "HOSTTIMEOUTERROR", "python-host-exchange", true, true)
    case Exited => UncertainEnd(Abort(s), mode, commands, env, "HOSTEXITEDERROR", "python-host-exchange", true, true)
    case ProtocolViolated =>
      UncertainEnd(Abort(s), mode, commands, env, "HOSTPROTOCOLERROR", "python-host-exchange", true, true)
    case NotAnObject =>
      UncertainEnd(Abort(s), mode, commands, env, "HOSTPROTOCOLERROR", "python-host-exchange", true, true)
    case Refused(_, _, _) => JudgeReply(s, mode, commands, env)
    case Answered(_) => JudgeReply(s, mode, commands, env)
    case Interrupted(started) =>
      if !started then (c, Interrupt(None))
      else
        var handled := Handle(s, BodyOf(mode, commands, env, INTERRUPT_CODE, "interrupted-command-exchange", true, true),
                              env);
        (handled.0, Interrupt(Some(handled.1)))
  }

  /** `select_and_operate` and `direct_operate`. */
  function Control(c: Session, mode: Mode, commands: seq<Command>, env: Env): (Session, CallEnd) {
    if c.token.None? then (c, Locked)
    else if !env.argumentsOk || !GoodBatch(commands) then (c, BadArguments)
    else if !c.simulator && (c.files.None? || c.dut.None?) then (c, Unconfigured)
    else if !c.simulator && !AssertClear(c.files.value, c.dut.value) then (c, Unresolved)
    else if c.state != RUNNING then (c, NotRunning)
    else ExecuteControl(c, mode, commands, env)
  }

  // ------------------------------------------------------------- other calls

  datatype Target = Target(simulator: bool, dut: Option<string>, allow: bool)

  /** The `safety` member of a connect reply. */
  datatype Safety = Safety(authorized: bool, token: Option<string>, simulated: bool)

  predicate Consistent(t: Target, s: Safety) {
    && (s.authorized <==> s.token.Some?)
    && (s.authorized && !t.simulator ==> t.dut.Some? && t.allow)
    && (t.simulator ==> s.authorized) && (t.simulator <==> s.simulated)
  }

  datatype Exchange = NothingSent | Replied | ReportedError | Failed

  function Connect(c: Session, target: Target, exchange: Exchange, safety: Safety): Session {
    if c.state != RUNNING then c
    else match exchange
      case NothingSent => c
      case ReportedError => c
      case Failed => Abort(c)
      case Replied =>
        if !Consistent(target, safety) then Abort(c)
        else c.(token := safety.token, simulator := target.simulator,
                dut := if safety.authorized then target.dut else None)
  }

  function Disconnect(c: Session, exchange: Exchange): Session {
    if c.state != RUNNING then c
    else match exchange
      case NothingSent => c
      case ReportedError => c
      case Failed => Abort(c)
      case Replied => c.(token := None)
  }

  function Request(c: Session, exchange: Exchange): Session {
    if c.state == RUNNING && exchange.Failed? then Abort(c) else c
  }

  function Start(c: Session, ok: bool): Session {
    if c.state != NEW then c else c.(state := if ok then RUNNING else BROKEN)
  }

  function Close(c: Session): Session {
    c.(state := CLOSED, token := None)
  }

  datatype Event =
    | StartCall(ok: bool)
    | ConnectCall(target: Target, exchange: Exchange, safety: Safety)
    | DisconnectCall(exchange: Exchange)
    | RequestCall(exchange: Exchange)
    | ControlCall(mode: Mode, commands: seq<Command>, env: Env)
    | CloseCall
    | OtherProcess(files: Files)

  function SessionStep(c: Session, e: Event): Session {
    match e
    case StartCall(ok) => Start(c, ok)
    case ConnectCall(target, exchange, safety) => Connect(c, target, exchange, safety)
    case DisconnectCall(exchange) => Disconnect(c, exchange)
    case RequestCall(exchange) => Request(c, exchange)
    case ControlCall(mode, commands, env) => Control(c, mode, commands, env).0
    case CloseCall => Close(c)
    case OtherProcess(files) => if c.files.Some? then c.(files := Some(files)) else c
  }

  function SessionRun(c: Session, events: seq<Event>): Session {
    if events == [] then c else SessionStep(SessionRun(c, events[..|events| - 1]), events[|events| - 1])
  }

  function NewSession(files: Option<Files>): Session {
    Session(NEW, None, false, None, files, [])
  }

  // ------------------------------------------------------------- fail closed

  /** A session that can send no control any more. */
  predicate Dead(c: Session) {
    c.token.None? && (c.state == BROKEN || c.state == CLOSED)
  }

  /** The three ways a lab control may end once it may have been sent. */
  predicate FailClosed(c: Session, end: CallEnd, mode: Mode, commands: seq<Command>) {
    || (end.Completed? && end.report.mode == mode && OneToOne(commands, end.report.items) && !end.report.uncertain
        && forall i :: 0 <= i < |end.report.items| ==> !NeedsManualReadback(end.report.items[i]))
    || (end.HostRefused? && end.code != "RESPONSE_TIMEOUT" && !end.uncertain.IsTrue? && !end.mayExecute.IsTrue?)
    || (Dead(c) && c.state == BROKEN
        && ((end.Uncertain? && end.how.NotPersisted?) || (end.Interrupt? && end.handled == Some(NotPersisted))
            || (c.files.Some? && c.dut.Some? && !AssertClear(c.files.value, c.dut.value))))
  }

  lemma {:induction false} LockLeavesLock(
    files: Files, inode: nat, dut: string, body: Body, incident: nat, luck: Luck, cleaned: bool)
    ensures var locked := Lock(files, inode, dut, body, incident, luck, cleaned);
            locked.1.LockRecord? ==> !AssertClear(locked.0, dut)
  {
  }

  lemma {:induction false} HandlerFailsClosed(c: Session, body: Body, env: Env)
    requires !c.simulator
    ensures var (d, how) := Handle(c, body, env);
            && Dead(d) && d.state == BROKEN && d.sent == c.sent && d.dut == c.dut
            && (how.NotPersisted? || (how.LockedBy? && d.files.Some? && d.dut.Some?
                                      && !AssertClear(d.files.value, d.dut.value)))
  {
    if c.files.Some? && c.dut.Some? {
      LockLeavesLock(c.files.value, env.inode, c.dut.value, body, env.incident, env.luck, env.cleaned);
    }
  }

  lemma {:induction false} UncertainEndFailsClosed(c: Session, mode: Mode, commands: seq<Command>, env: Env, code: string,
                                requestId: string, uncertain: bool, mayExecute: bool)
    requires !c.simulator
    ensures var (d, end) := UncertainEnd(c, mode, commands, env, code, requestId, uncertain, mayExecute);
            FailClosed(d, end, mode, commands) && d.sent == c.sent
  {
    HandlerFailsClosed(c, BodyOf(mode, commands, env, code, requestId, uncertain, mayExecute), env);
  }

  lemma {:induction false} ExecuteFailsClosed(c: Session, mode: Mode, commands: seq<Command>, env: Env)
    requires !c.simulator
    ensures var (d, end) := ExecuteControl(c, mode, commands, env);
            (d.sent == c.sent + [mode] && FailClosed(d, end, mode, commands)) || d.sent == c.sent
  {
    var s := c.(sent := c.sent + [mode]);
    match env.ending
    case NotSent =>
    case ExitedBefore =>
      UncertainEndFailsClosed(Abort(c), mode, commands, env, "HOSTEXITEDERROR", "python-host-exchange", true, true);
    case TimedOut =>
      UncertainEndFailsClosed(Abort(s), mode, commands, env, "HOSTTIMEOUTERROR", "python-host-exchange", true, true);
    case Exited =>
      UncertainEndFailsClosed(Abort(s), mode, commands, env, "HOSTEXITEDERROR", "python-host-exchange", true, true);
    case ProtocolViolated =>
      UncertainEndFailsClosed(Abort(s), mode, commands, env, "HOSTPROTOCOLERROR", "python-host-exchange", true, true);
    case NotAnObject =>
      UncertainEndFailsClosed(Abort(s), mode, commands, env, "HOSTPROTOCOLERROR", "python-host-exchange", true, true);
    case Refused(code, u, m) =>
      UncertainEndFailsClosed(s, mode, commands, env, code, env.requestId, Truth(u), Truth(m));
    case Answered(report) =>
      UncertainEndFailsClosed(s, mode, commands, env, "INVALID_COMMAND_RESULT", "invalid-command-result", true, true);
      UncertainEndFailsClosed(s, mode, commands, env, "UNCERTAIN_COMMAND_RESULT", "command-task", true, true);
    case Interrupted(started) =>
      HandlerFailsClosed(s, BodyOf(mode, commands, env, INTERRUPT_CODE, "interrupted-command-exchange", true, true), env);
  }

  /**
   * A lab control that may have been sent ends fully correlated with no doubtful point, or with a
   * plain refusal, or leaves the session broken without its token and the device locked (or the
   * failure to lock it raised).
   */
  lemma {:induction false} ControlFailsClosed(c: Session, mode: Mode, commands: seq<Command>, env: Env)
    requires !c.simulator
    ensures var (d, end) := Control(c, mode, commands, env);
            && (d.sent == c.sent || d.sent == c.sent + [mode])
            && (d.sent != c.sent ==> FailClosed(d, end, mode, commands))
  {
    ExecuteFailsClosed(c, mode, commands, env);
  }

  /** At most one control is sent by a call, and only from a session that may send it. */
  lemma {:induction false} SendsOnlyWhenClear(c: Session, mode: Mode, commands: seq<Command>, env: Env)
    ensures var d := Control(c, mode, commands, env).0;
            d.sent != c.sent ==>
              && d.sent == c.sent + [mode] && c.token.Some? && c.state == RUNNING && GoodBatch(commands)
              && (!c.simulator ==> c.files.Some? && c.dut.Some? && AssertClear(c.files.value, c.dut.value))
  {
    assert c.sent + [mode] != c.sent;
  }

  // ------------------------------------------------------------- every end, both ways

  /** The checks before anything is sent: token, arguments, batch, a clear device in the lab, a running host. */
  predicate MaySend(c: Session, commands: seq<Command>, env: Env) {
    && c.token.Some? && env.argumentsOk && GoodBatch(commands) && c.state == RUNNING
    && (!c.simulator ==> c.files.Some? && c.dut.Some? && AssertClear(c.files.value, c.dut.value))
  }

  /** A reply that needs no readback: it passes the report check, answers the request, and is certain. */
  ghost predicate Undoubted(report: Report, mode: Mode, commands: seq<Command>) {
    && FromMappingAccepts(report) && report.mode == mode && OneToOne(commands, report.items)
    && !report.uncertain && forall i :: 0 <= i < |report.items| ==> !NeedsManualReadback(report.items[i])
  }

  /** A refusal that leaves no doubt: no timeout, and no flag set. */
  predicate PlainRefusal(e: Ending) {
    e.Refused? && e.code != "RESPONSE_TIMEOUT" && e.uncertain != IsTrue && e.mayExecute != IsTrue
  }

  predicate Blocked(end: CallEnd) {
    end.Locked? || end.BadArguments? || end.Unconfigured? || end.Unresolved? || end.NotRunning?
  }

  lemma {:induction false} ReplyEndsExactly(s: Session, mode: Mode, commands: seq<Command>, env: Env)
    requires env.ending.Refused? || env.ending.Answered?
    ensures var (d, end) := JudgeReply(s, mode, commands, env);
            && (end.Completed? || end.HostRefused? || end.Uncertain?)
            && (end.Completed? <==> env.ending.Answered? && env.ending.report.Some?
                                    && Undoubted(env.ending.report.value, mode, commands))
            && (end.Completed? ==> Some(end.report) == env.ending.report && d == s)
            && (end.HostRefused? <==> PlainRefusal(env.ending))
            && (end.HostRefused? ==>
                  end == HostRefused(env.ending.code, env.ending.uncertain, env.ending.mayExecute) && d == s)
  {
  }

  lemma {:induction false} ExecuteEndsExactly(c: Session, mode: Mode, commands: seq<Command>, env: Env)
    ensures var (d, end) := ExecuteControl(c, mode, commands, env);
            var s := c.(sent := c.sent + [mode]);
            && !Blocked(end)
            && (end.Completed? <==> env.ending.Answered? && env.ending.report.Some?
                                    && Undoubted(env.ending.report.value, mode, commands))
            && (end.Completed? ==> Some(end.report) == env.ending.report && d == s)
            && (end.HostRefused? <==> PlainRefusal(env.ending))
            && (end.HostRefused? ==>
                  end == HostRefused(env.ending.code, env.ending.uncertain, env.ending.mayExecute) && d == s)
            && (end.Unsent? <==> env.ending.NotSent?)
            && (end.Interrupt? <==> env.ending.Interrupted?)
            && (end.Interrupt? ==> (end.handled.Some? <==> env.ending.started))
            && (end.Unsent? || end == Interrupt(None) ==> d == c)
  {
    if env.ending.Refused? || env.ending.Answered? {
      ReplyEndsExactly(c.(sent := c.sent + [mode]), mode, commands, env);
    }
  }

  /**
   * How a control ends, both ways.  A call that fails a check before sending changes nothing.  Any
   * other is completed exactly by a certain reply that answers the request, and refused exactly by a
   * plain refusal, and then the session differs only in what it sent.  Unless it was never sent or
   * interrupted, every other end is uncertain.
   */
  lemma {:induction false} ControlEndsExactly(c: Session, mode: Mode, commands: seq<Command>, env: Env)
    ensures var (d, end) := Control(c, mode, commands, env);
            var s := c.(sent := c.sent + [mode]);
            && (Blocked(end) <==> !MaySend(c, commands, env))
            && (Blocked(end) ==> d == c)
            && (end.Completed? <==> MaySend(c, commands, env) && env.ending.Answered? && env.ending.report.Some?
                                    && Undoubted(env.ending.report.value, mode, commands))
            && (end.Completed? ==> Some(end.report) == env.ending.report && d == s)
            && (end.HostRefused? <==> MaySend(c, commands, env) && PlainRefusal(env.ending))
            && (end.HostRefused? ==>
                  end == HostRefused(env.ending.code, env.ending.uncertain, env.ending.mayExecute) && d == s)
            && (end.Unsent? <==> MaySend(c, commands, env) && env.ending.NotSent?)
            && (end.Interrupt? <==> MaySend(c, commands, env) && env.ending.Interrupted?)
            && (end.Interrupt? ==> (end.handled.Some? <==> env.ending.started))
            && (end.Unsent? || end == Interrupt(None) ==> d == c)
  {
    ExecuteEndsExactly(c, mode, commands, env);
  }

  /** Which check blocks a call: the first that fails, in this order. */
  lemma {:induction false} BlockedExactly(c: Session, mode: Mode, commands: seq<Command>, env: Env)
    ensures var end := Control(c, mode, commands, env).1;
            var arguments := env.argumentsOk && GoodBatch(commands);
            var configured := c.simulator || (c.files.Some? && c.dut.Some?);
            var clear := c.simulator || (configured && AssertClear(c.files.value, c.dut.value));
            && (end.Locked? <==> c.token.None?)
            && (end.BadArguments? <==> c.token.Some? && !arguments)
            && (end.Unconfigured? <==> c.token.Some? && arguments && !configured)
            && (end.Unresolved? <==> c.token.Some? && arguments && configured && !clear)
            && (end.NotRunning? <==> c.token.Some? && arguments && clear && c.state != RUNNING)
  {
    ExecuteEndsExactly(c, mode, commands, env);
  }

  /** Every uncertain end drops the token and breaks the session, and names why. */
  lemma {:induction false} UncertainExactly(c: Session, mode: Mode, commands: seq<Command>, env: Env)
    ensures var (d, end) := Control(c, mode, commands, env);
            && (end.Uncertain? ==> d.token.None? && d.state == BROKEN)
            && (end.Uncertain? && env.ending.Refused? ==> end.code == env.ending.code)
            && (end.Uncertain? && env.ending.TimedOut? ==> end.code == "HOSTTIMEOUTERROR")
            && (end.Uncertain? && (env.ending.Exited? || env.ending.ExitedBefore?) ==> end.code == "HOSTEXITEDERROR")
            && (end.Uncertain? && (env.ending.ProtocolViolated? || env.ending.NotAnObject?) ==>
                  end.code == "HOSTPROTOCOLERROR")
            && (end.Uncertain? && env.ending.Answered? ==>
                  end.code == if env.ending.report.Some? && FromMappingAccepts(env.ending.report.value)
                                 && env.ending.report.value.mode == mode
                                 && OneToOne(commands, env.ending.report.value.items)
                              then "UNCERTAIN_COMMAND_RESULT" else "INVALID_COMMAND_RESULT")
  {
  }

  lemma {:induction false} PointsStayDistinct(commands: seq<Command>)
    requires GoodBatch(commands)
    ensures var ps := PointsOf(commands);
            && (forall i :: 0 <= i < |ps| ==> ps[i].0 in COMMAND_TYPES && ps[i].1 <= 65535)
            && (forall i, j :: 0 <= i < j < |ps| ==> ps[i] != ps[j])
  {
    forall i, j | 0 <= i < j < |commands| ensures PointsOf(commands)[i] != PointsOf(commands)[j] {
      KindNamesDiffer(commands[i].kind, commands[j].kind);
    }
  }

  lemma {:induction false} KindNamesDiffer(a: Kind, b: Kind)
    ensures KindName(a) == KindName(b) <==> a == b
  {
    assert KindName(a)[0] == 'c' <==> a == Crob;
    assert |KindName(Int16)| == 19 && |KindName(Float32)| == 21 && |KindName(Double64)| == 22;
    assert KindName(Int16)[17] == '1' && KindName(Int32)[17] == '3';
  }

  /** The incident the handler writes passes its own validation, so only the disk can refuse the lock. */
  lemma {:induction false} IncidentIsValid(mode: Mode, commands: seq<Command>, env: Env, code: string, requestId: string,
                        uncertain: bool, mayExecute: bool)
    requires GoodBatch(commands) && BoundedText(code, 128) && BoundedText(requestId, 256)
    requires uncertain || mayExecute || code == "RESPONSE_TIMEOUT"
    ensures ValidBody(BodyOf(mode, commands, env, code, requestId, uncertain, mayExecute))
  {
    PointsStayDistinct(commands);
  }

  lemma {:induction false} ExchangeCodesAreBounded()
    ensures BoundedText("HOSTEXITEDERROR", 128) && BoundedText("HOSTTIMEOUTERROR", 128)
    ensures BoundedText("HOSTPROTOCOLERROR", 128) && BoundedText("python-host-exchange", 256)
  {
  }

  lemma {:induction false} ResultCodesAreBounded()
    ensures BoundedText("INVALID_COMMAND_RESULT", 128) && BoundedText("invalid-command-result", 256)
    ensures BoundedText("UNCERTAIN_COMMAND_RESULT", 128) && BoundedText("command-task", 256)
  {
  }

  lemma {:induction false} InterruptCodesAreBounded()
    ensures BoundedText(INTERRUPT_CODE, 128) && BoundedText("interrupted-command-exchange", 256)
  {
  }

  predicate HostTextsBounded(env: Env) {
    BoundedText(env.requestId, 256) && (env.ending.Refused? ==> BoundedText(env.ending.code, 128))
  }

  /** The session stands where `assert_clear` has just passed. */
  predicate Clear(c: Session) {
    !c.simulator && c.files.Some? && c.dut.Some? && AssertClear(c.files.value, c.dut.value)
  }

  predicate LockedOpen(how: Ended) {
    how.LockedBy? && how.doc.status.Open?
  }

  lemma {:induction false} HandlerLocks(c: Session, mode: Mode, commands: seq<Command>, env: Env, code: string, requestId: string,
                     uncertain: bool, mayExecute: bool)
    requires Clear(c) && env.luck.Works?
    requires GoodBatch(commands) && BoundedText(code, 128) && BoundedText(requestId, 256)
    requires uncertain || mayExecute || code == "RESPONSE_TIMEOUT"
    ensures LockedOpen(Handle(c, BodyOf(mode, commands, env, code, requestId, uncertain, mayExecute), env).1)
  {
    IncidentIsValid(mode, commands, env, code, requestId, uncertain, mayExecute);
  }

  lemma {:induction false} ReplyLocks(s: Session, mode: Mode, commands: seq<Command>, env: Env)
    requires Clear(s) && env.luck.Works? && HostTextsBounded(env) && GoodBatch(commands)
    requires env.ending.Refused? || env.ending.Answered?
    ensures var end := JudgeReply(s, mode, commands, env).1;
            !end.Interrupt? && (end.Uncertain? ==> LockedOpen(end.how))
  {
    match env.ending
    case Refused(code, u, m) =>
      if SaysUncertain(code, u, m) { HandlerLocks(s, mode, commands, env, code, env.requestId, Truth(u), Truth(m)); }
    case Answered(_) =>
      ResultCodesAreBounded();
      HandlerLocks(s, mode, commands, env, "INVALID_COMMAND_RESULT", "invalid-command-result", true, true);
      HandlerLocks(s, mode, commands, env, "UNCERTAIN_COMMAND_RESULT", "command-task", true, true);
  }

  /**
   * When the disk works, and no other process touches the incident directory between the check
   * before the request and the handler, every uncertain end of a lab control leaves the device
   * locked by an open incident.  With another recorder or an acknowledger at work meanwhile, the
   * handler may return their record, which can be acknowledged already.
   */
  lemma {:induction false} UncertainEndsLock(c: Session, mode: Mode, commands: seq<Command>, env: Env)
    requires !c.simulator && env.luck.Works? && HostTextsBounded(env)
    ensures var end := Control(c, mode, commands, env).1;
            && (end.Uncertain? ==> LockedOpen(end.how))
            && (end.Interrupt? && end.handled.Some? ==> LockedOpen(end.handled.value))
  {
    if Clear(c) && GoodBatch(commands) {
      var s := c.(sent := c.sent + [mode]);
      ExchangeCodesAreBounded();
      match env.ending
      case NotSent =>
      case ExitedBefore =>
        HandlerLocks(Abort(c), mode, commands, env, "HOSTEXITEDERROR", "python-host-exchange", true, true);
      case TimedOut =>
        HandlerLocks(Abort(s), mode, commands, env, "HOSTTIMEOUTERROR", "python-host-exchange", true, true);
      case Exited =>
        HandlerLocks(Abort(s), mode, commands, env, "HOSTEXITEDERROR", "python-host-exchange", true, true);
      case ProtocolViolated =>
        HandlerLocks(Abort(s), mode, commands, env, "HOSTPROTOCOLERROR", "python-host-exchange", true, true);
      case NotAnObject =>
        HandlerLocks(Abort(s), mode, commands, env, "HOSTPROTOCOLERROR", "python-host-exchange", true, true);
      case Interrupted(started) =>
        InterruptCodesAreBounded();
        HandlerLocks(s, mode, commands, env, INTERRUPT_CODE, "interrupted-command-exchange", true, true);
      case _ => ReplyLocks(s, mode, commands, env);
    }
  }

  /** The incident names the command it was recorded for, and is the active record of the device. */
  predicate Names(d: Session, how: Ended, mode: Mode, commands: seq<Command>, env: Env, code: string,
                  uncertain: bool, mayExecute: bool)
  {
    how.LockedBy? && d.files.Some? && d.dut.Some? &&
    var doc := how.doc;
    && doc.status.Open? && doc.dut == d.dut.value && Holds(d.files.value, Active(doc.dut), doc)
    && doc.body.operation == (match mode case SelectAndOperate => "select_and_operate" case DirectOperate => "direct_operate")
    && |doc.body.points| == |commands|
    && (forall i :: 0 <= i < |commands| ==> doc.body.points[i] == (KindName(commands[i].kind), commands[i].index))
    && doc.body.code == code && doc.body.payloadSha == env.payloadSha
    && doc.body.executionUncertain == uncertain && doc.body.mayStillExecute == mayExecute
    && (env.ending.Refused? ==> doc.body.requestId == env.requestId)
  }

  lemma {:induction false} HandlerNames(c: Session, mode: Mode, commands: seq<Command>, env: Env, code: string,
                                        requestId: string, uncertain: bool, mayExecute: bool)
    requires Clear(c) && env.luck.Works?
    requires GoodBatch(commands) && BoundedText(code, 128) && BoundedText(requestId, 256)
    requires uncertain || mayExecute || code == "RESPONSE_TIMEOUT"
    requires env.ending.Refused? ==> requestId == env.requestId
    ensures var (d, how) := Handle(c, BodyOf(mode, commands, env, code, requestId, uncertain, mayExecute), env);
            Names(d, how, mode, commands, env, code, uncertain, mayExecute)
  {
    IncidentIsValid(mode, commands, env, code, requestId, uncertain, mayExecute);
  }

  lemma {:induction false} ReplyNames(s: Session, mode: Mode, commands: seq<Command>, env: Env)
    requires Clear(s) && env.luck.Works? && HostTextsBounded(env) && GoodBatch(commands)
    requires env.ending.Refused? || env.ending.Answered?
    ensures var (d, end) := JudgeReply(s, mode, commands, env);
            && !end.Interrupt?
            && (end.Uncertain? ==> Names(d, end.how, mode, commands, env, end.code,
                  !env.ending.Refused? || env.ending.uncertain != Other(false),
                  !env.ending.Refused? || env.ending.mayExecute != Other(false)))
  {
    match env.ending
    case Refused(code, u, m) =>
      if SaysUncertain(code, u, m) { HandlerNames(s, mode, commands, env, code, env.requestId, Truth(u), Truth(m)); }
    case Answered(_) =>
      ResultCodesAreBounded();
      HandlerNames(s, mode, commands, env, "INVALID_COMMAND_RESULT", "invalid-command-result", true, true);
      HandlerNames(s, mode, commands, env, "UNCERTAIN_COMMAND_RESULT", "command-task", true, true);
  }

  /**
   * What the lock left by an uncertain end says: the device, the operation, every point, the code,
   * and the flags, where a flag the host left out counts as set.
   */
  lemma {:induction false} LockNamesCommand(c: Session, mode: Mode, commands: seq<Command>, env: Env)
    requires !c.simulator && env.luck.Works? && HostTextsBounded(env)
    ensures var (d, end) := Control(c, mode, commands, env);
            && (end.Uncertain? ==> Names(d, end.how, mode, commands, env, end.code,
                  !env.ending.Refused? || env.ending.uncertain != Other(false),
                  !env.ending.Refused? || env.ending.mayExecute != Other(false)))
            && (end.Interrupt? && end.handled.Some? ==>
                  Names(d, end.handled.value, mode, commands, env, INTERRUPT_CODE, true, true))
  {
    if Clear(c) && GoodBatch(commands) {
      var s := c.(sent := c.sent + [mode]);
      ExchangeCodesAreBounded();
      match env.ending
      case NotSent =>
      case ExitedBefore =>
        HandlerNames(Abort(c), mode, commands, env, "HOSTEXITEDERROR", "python-host-exchange", true, true);
      case TimedOut =>
        HandlerNames(Abort(s), mode, commands, env, "HOSTTIMEOUTERROR", "python-host-exchange", true, true);
      case Exited =>
        HandlerNames(Abort(s), mode, commands, env, "HOSTEXITEDERROR", "python-host-exchange", true, true);
      case ProtocolViolated =>
        HandlerNames(Abort(s), mode, commands, env, "HOSTPROTOCOLERROR", "python-host-exchange", true, true);
      case NotAnObject =>
        HandlerNames(Abort(s), mode, commands, env, "HOSTPROTOCOLERROR", "python-host-exchange", true, true);
      case Interrupted(started) =>
        InterruptCodesAreBounded();
        HandlerNames(s, mode, commands, env, INTERRUPT_CODE, "interrupted-command-exchange", true, true);
      case _ => ReplyNames(s, mode, commands, env);
    }
  }

  /** A token exists only in a running session, and a lab token only with a device behind it. */
  predicate TokenOk(c: Session) {
    c.token.Some? ==> c.state == RUNNING && (!c.simulator ==> c.dut.Some?)
  }

  lemma {:induction false} ControlKeepsToken(c: Session, mode: Mode, commands: seq<Command>, env: Env)
    requires TokenOk(c)
    ensures var d := Control(c, mode, commands, env).0;
            TokenOk(d) && (Dead(c) ==> Dead(d) && d.sent == c.sent)
  {
  }

  lemma {:induction false} StepKeepsToken(c: Session, e: Event)
    requires TokenOk(c)
    ensures TokenOk(SessionStep(c, e))
    ensures Dead(c) ==> Dead(SessionStep(c, e)) && SessionStep(c, e).sent == c.sent
  {
    if e.ControlCall? { ControlKeepsToken(c, e.mode, e.commands, e.env); }
  }

  /** Once dead, a session stays dead and sends no control, whatever is called on it. */
  lemma {:induction false} DeadForever(c: Session, events: seq<Event>)
    requires TokenOk(c) && Dead(c)
    ensures Dead(SessionRun(c, events)) && SessionRun(c, events).sent == c.sent && TokenOk(SessionRun(c, events))
  {
    if events != [] {
      DeadForever(c, events[..|events| - 1]);
      StepKeepsToken(SessionRun(c, events[..|events| - 1]), events[|events| - 1]);
    }
  }

  lemma {:induction false} RunKeepsToken(files: Option<Files>, events: seq<Event>)
    ensures TokenOk(SessionRun(NewSession(files), events))
  {
    if events != [] {
      RunKeepsToken(files, events[..|events| - 1]);
      StepKeepsToken(SessionRun(NewSession(files), events[..|events| - 1]), events[|events| - 1]);
    }
  }

  lemma {:induction false} UncertaintyKills(c: Session, mode: Mode, commands: seq<Command>, env: Env)
    ensures var (d, end) := Control(c, mode, commands, env);
            end.Uncertain? || (end.Interrupt? && end.handled.Some?) ==> Dead(d)
  {
  }

  /**
   * Over a whole session: after a lab control whose outcome is uncertain, however the calls
   * continue, no further control is ever sent.
   */
  lemma {:induction false} NoControlAfterUncertainty(files: Option<Files>, before: seq<Event>, mode: Mode, commands: seq<Command>,
                                  env: Env, after: seq<Event>)
    ensures var c := SessionRun(NewSession(files), before);
            var (d, end) := Control(c, mode, commands, env);
            (end.Uncertain? || (end.Interrupt? && end.handled.Some?)) ==>
              Dead(SessionRun(d, after)) && SessionRun(d, after).sent == d.sent
  {
    var c := SessionRun(NewSession(files), before);
    RunKeepsToken(files, before);
    StepKeepsToken(c, ControlCall(mode, commands, env));
    UncertaintyKills(c, mode, commands, env);
    var (d, end) := Control(c, mode, commands, env);
    if end.Uncertain? || (end.Interrupt? && end.handled.Some?) {
      DeadForever(d, after);
    }
  }

  /**
   * A session gets a token exactly by a connect reply of a running host that authorizes it for this
   * target; it loses it by a disconnect, a failed exchange, or its end.
   */
  lemma {:induction false} ConnectGivesToken(c: Session, target: Target, exchange: Exchange, safety: Safety)
    ensures var d := SessionStep(c, ConnectCall(target, exchange, safety));
            && (c.state == RUNNING && exchange.Replied? && Consistent(target, safety) ==>
                  && d.token == safety.token && d.state == RUNNING && d.simulator == target.simulator
                  && (safety.authorized && !target.simulator ==> d.dut == target.dut && d.dut.Some?))
            && (c.state == RUNNING && (exchange.Failed? || (exchange.Replied? && !Consistent(target, safety))) ==> Dead(d))
            && (c.state != RUNNING || exchange.NothingSent? || exchange.ReportedError? ==> d == c)
  {
  }

  lemma {:induction false} OtherCallsDo(c: Session, exchange: Exchange, ok: bool)
    ensures c.state == RUNNING && exchange.Replied? ==>
      SessionStep(c, DisconnectCall(exchange)) == c.(token := None) && SessionStep(c, RequestCall(exchange)) == c
    ensures c.state == RUNNING && exchange.Failed? ==>
      Dead(SessionStep(c, DisconnectCall(exchange))) && Dead(SessionStep(c, RequestCall(exchange)))
    ensures c.state == NEW ==> SessionStep(c, StartCall(ok)).state == (if ok then RUNNING else BROKEN)
    ensures Dead(SessionStep(c, CloseCall)) && SessionStep(c, CloseCall).state == CLOSED
  {
  }

  // ------------------------------------------------------------- host and client together

  /** How the host's outcome reaches the client. */
  function EndingOf(outcome: Outcome): Ending {
    match outcome
    case Undecided(_) => Refused("RESPONSE_TIMEOUT", IsTrue, IsTrue)
    case Failed(code, uncertain, _) =>
      var flag := if uncertain then IsTrue else Other(false);
      Refused(if code == RESPONSE_TIMEOUT then "RESPONSE_TIMEOUT" else "COMMAND_FAILED", flag, flag)
    case Uncorrelated(_) => Refused("PROTOCOL_ERROR", IsTrue, IsTrue)
    case Success(report) => Ending.Answered(Some(report))
  }

  /**
   * From the library's callbacks to the operator: if the client reports a plain refusal, the
   * operation was decided without ever starting; if it reports a result, it succeeded and the points
   * are a permutation of the request, all of them certain.
   */
  lemma {:induction false} HostAndClientAgree(c: Session, o: Op, env: Env)
    requires OpOk(o) && env.ending == EndingOf(OutcomeOf(o))
    ensures var end := Control(c, o.mode, o.commands, env).1;
            && (end.HostRefused? ==> o.done && !o.started)
            && (end.Completed? ==> o.completion == Some(SUCCESS) && !o.cancelled
                                   && OneToOne(o.commands, end.report.items)
                                   && forall i :: 0 <= i < |o.points| ==> !NeedsReadback(o.points[i].statusRaw))
  {
    EndTells(c, o, env);
    if OutcomeOf(o).Success? {
      SuccessIsPermutation(o);
      CountsAre(o.points, o.metadata);
    } else if !MarkedUncertain(OutcomeOf(o)) {
      UnmarkedFailureNeverStarted(o);
    }
  }

  /**
   * Both ways, for any decided operation and any call that passes the checks before sending: a failed
   * operation ends as a plain refusal exactly if it neither timed out nor started and no point is
   * doubtful; a successful one ends completed exactly if it had started or some point failed, and no
   * point is doubtful; an uncorrelated or undecided one is always uncertain.
   */
  lemma {:induction false} HostOutcomeEndsExactly(c: Session, o: Op, env: Env)
    requires OpOk(o) && env.ending == EndingOf(OutcomeOf(o)) && MaySend(c, o.commands, env)
    ensures var end := Control(c, o.mode, o.commands, env).1;
            && (end.Completed? || end.HostRefused? || end.Uncertain?)
            && (end.HostRefused? <==> DecidedAsFailed(o) && o.completion != Some(FAILURE_RESPONSE_TIMEOUT)
                                      && !o.started && !PointsDoubtful(o))
            && (end.Completed? <==> && o.done && !DecidedAsFailed(o) && OneToOne(o.commands, o.verdict.items)
                                    && (o.started || !AllPointsSuccess(o))
                                    && forall i :: 0 <= i < |o.points| ==> !NeedsReadback(o.points[i].statusRaw))
  {
    ControlEndsExactly(c, o.mode, o.commands, env);
    OutcomeExactly(o);
    if DecidedAsFailed(o) {
      FailureExactly(o);
    } else if OutcomeOf(o).Success? {
      SuccessEndsExactly(o);
    }
  }

  lemma {:induction false} SuccessEndsExactly(o: Op)
    requires OpOk(o) && OutcomeOf(o).Success?
    ensures Undoubted(OutcomeOf(o).report, o.mode, o.commands) <==>
            (o.started || !AllPointsSuccess(o)) && forall i :: 0 <= i < |o.points| ==> !NeedsReadback(o.points[i].statusRaw)
  {
    SuccessIsPermutation(o);
    ClientAcceptsSuccess(o);
    SuccessExactly(o);
    var items := OutcomeOf(o).report.items;
    forall i | 0 <= i < |items| ensures NeedsManualReadback(items[i]) <==> NeedsReadback(o.points[i].statusRaw) {
      assert items[i] == ItemOf(o.points[i], o.metadata);
    }
  }

  lemma {:induction false} EndTells(c: Session, o: Op, env: Env)
    requires env.ending == EndingOf(OutcomeOf(o))
    ensures var end := Control(c, o.mode, o.commands, env).1;
            && (end.HostRefused? ==> !OutcomeOf(o).Success? && !MarkedUncertain(OutcomeOf(o)))
            && (end.Completed? ==> OutcomeOf(o).Success? && end.report == OutcomeOf(o).report && !end.report.uncertain)
  {
  }

  // ------------------------------------------------------------- the object

  class Dnp3MasterClient {
    const store: SafetyIncidentStore?
    var state: SessionState
    var token: Option<string>
    var simulator: bool
    var dut: Option<string>
    var requestWriteStarted: bool
    ghost var sent: seq<Mode>

    ghost function Abs(): Session
      reads this, store
    {
      Session(state, token, simulator, dut, if store == null then None else Some(store.files), sent)
    }

    ghost predicate Valid()
      reads this, store
    {
      store != null ==> store.Valid()
    }

    constructor (store: SafetyIncidentStore?)
      requires store != null ==> store.Valid()
      ensures Valid() && this.store == store
      ensures Abs() == NewSession(if store == null then None else Some(store.files))
    {
      this.store := store;
      state, token, simulator, dut, requestWriteStarted, sent := NEW, None, false, None, false, [];
    }

    method AbortProcess()
      modifies `state, `token
      ensures Abs() == Abort(old(Abs()))
    {
      token := None;
      state := BROKEN;
    }

    /** Record, then in any case drop the token and the process. */
    method HandleUncertainCommand(body: Body, env: Env) returns (how: Ended)
      requires Valid()
      modifies `state, `token, store
      ensures Valid()
      ensures (Abs(), how) == Handle(old(Abs()), body, env)
    {
      if simulator {
        AbortProcess();
        return SimulatorEnded;
      }
      how := NotPersisted;
      if store != null && dut.Some? {
        var r := store.RecordUncertain(dut.value, body, env.incident, env.inode, env.luck, env.cleaned);
        if r.LockRecord? {
          how := LockedBy(r.doc);
        }
      }
      AbortProcess();
    }

    method EndUncertain(mode: Mode, commands: seq<Command>, env: Env, code: string, requestId: string,
                        uncertain: bool, mayExecute: bool)
      returns (end: CallEnd)
      requires Valid()
      modifies `state, `token, store
      ensures Valid()
      ensures (Abs(), end) == UncertainEnd(old(Abs()), mode, commands, env, code, requestId, uncertain, mayExecute)
    {
      var how := HandleUncertainCommand(BodyOf(mode, commands, env, code, requestId, uncertain, mayExecute), env);
      end := CallEnd.Uncertain(code, how);
    }

    /** The request boundary: from here on the host may have received the control. */
    method BeginWrite(mode: Mode)
      modifies `requestWriteStarted, `sent
      ensures Abs() == old(Abs()).(sent := old(sent) + [mode]) && requestWriteStarted
    {
      requestWriteStarted := true;
      sent := sent + [mode];
    }

    method Exchanged(mode: Mode, commands: seq<Command>, env: Env) returns (end: CallEnd)
      requires Valid() && (env.ending.Refused? || env.ending.Answered?)
      modifies `state, `token, store
      ensures Valid()
      ensures (Abs(), end) == JudgeReply(old(Abs()), mode, commands, env)
    {
      match env.ending
      case Refused(code, u, m) =>
        if SaysUncertain(code, u, m) {
          end := EndUncertain(mode, commands, env, code, env.requestId, Truth(u), Truth(m));
        } else {
          end := HostRefused(code, u, m);
        }
      case Answered(report) =>
        var ok := false;
        if report.Some? && FromMappingAccepts(report.value) && report.value.mode == mode {
          ok := ValidateCommandCorrelation(commands, report.value.items);
        }
        if !ok {
          end := EndUncertain(mode, commands, env, "INVALID_COMMAND_RESULT", "invalid-command-result", true, true);
        } else if Doubtful(report.value) {
          end := EndUncertain(mode, commands, env, "UNCERTAIN_COMMAND_RESULT", "command-task", true, true);
        } else {
          end := Completed(report.value);
        }
    }

    method Broke(mode: Mode, commands: seq<Command>, env: Env, code: string) returns (end: CallEnd)
      requires Valid()
      modifies `state, `token, store
      ensures Valid()
      ensures (Abs(), end)
              == UncertainEnd(Abort(old(Abs())), mode, commands, env, code, "python-host-exchange", true, true)
    {
      AbortProcess();
      end := EndUncertain(mode, commands, env, code, "python-host-exchange", true, true);
    }

    method ExecuteCommandTask(mode: Mode, commands: seq<Command>, env: Env) returns (end: CallEnd)
      requires Valid()
      modifies this, store
      ensures Valid()
      ensures (Abs(), end) == ExecuteControl(old(Abs()), mode, commands, env)
    {
      requestWriteStarted := false;
      if env.ending.NotSent? || (env.ending.Interrupted? && !env.ending.started) {
        return if env.ending.NotSent? then Unsent else Interrupt(None);
      }
      if env.ending.ExitedBefore? {
        end := Broke(mode, commands, env, "HOSTEXITEDERROR");
        return;
      }
      BeginWrite(mode);
      if env.ending.Refused? || env.ending.Answered? {
        end := Exchanged(mode, commands, env);
      } else if env.ending.Interrupted? {
        if requestWriteStarted {
          var how := HandleUncertainCommand(
            BodyOf(mode, commands, env, INTERRUPT_CODE, "interrupted-command-exchange", true, true), env);
          end := Interrupt(Some(how));
        } else {
          end := Interrupt(None);
        }
      } else if env.ending.TimedOut? {
        end := Broke(mode, commands, env, "HOSTTIMEOUTERROR");
      } else if env.ending.Exited? {
        end := Broke(mode, commands, env, "HOSTEXITEDERROR");
      } else {
        end := Broke(mode, commands, env, "HOSTPROTOCOLERROR");
      }
      requestWriteStarted := false;
    }

    method CommandTaskResult(mode: Mode, commands: seq<Command>, env: Env) returns (end: CallEnd)
      requires Valid()
      modifies this, store
      ensures Valid()
      ensures (Abs(), end) == Control(old(Abs()), mode, commands, env)
    {
      if token.None? {
        return Locked;
      }
      if !env.argumentsOk || !GoodBatch(commands) {
        return BadArguments;
      }
      if !simulator {
        if store == null || dut.None? {
          return Unconfigured;
        }
        if !AssertClear(store.files, dut.value) {
          return Unresolved;
        }
      }
      if state != RUNNING {
        return NotRunning;
      }
      end := ExecuteCommandTask(mode, commands, env);
    }

    method Close()
      modifies `state, `token
      ensures Abs() == SessionStep(old(Abs()), CloseCall)
    {
      state := CLOSED;
      token := None;
    }
  }
}
