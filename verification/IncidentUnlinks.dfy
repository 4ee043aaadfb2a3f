// When a recorder's failure handler may unlink the active file of a DUT without losing a lock.
// The handler unlinks by path, so after a failed fsync it may meet the file of somebody else.

module IncidentUnlinks {
  import opened Common
  import opened Incidents

  /** A caller was told that the incident locks the DUT; nothing is archived, and control is clear. */
  predicate LostAt(s: State, d: string, i: nat) {
    i in s.told && i in s.shown && s.shown[i].dut == d && !Archived(s, i) && AssertClear(s.files, d)
  }

  /** No failure handler unlinks in the run. */
  predicate UnlinkFree(s: State, events: seq<Event>)
    decreases |events|
  {
    events == [] || (!Unlinks(s, events[0]) && UnlinkFree(Step(s, events[0]), events[1..]))
  }

  lemma {:induction false} UnlinkFreeKeeps(s: State, events: seq<Event>)
    requires Inv(s) && UnlinkFree(s, events)
    ensures Inv(RunFrom(s, events))
    decreases |events|
  {
    if events != [] {
      StepKeeps(s, events[0]);
      UnlinkFreeKeeps(Step(s, events[0]), events[1..]);
    }
  }

  lemma {:induction false} Continue(s: State, events: seq<Event>, more: seq<Event>)
    requires UnlinkFree(s, events) && UnlinkFree(RunFrom(s, events), more)
    ensures UnlinkFree(s, events + more) && RunFrom(s, events + more) == RunFrom(RunFrom(s, events), more)
    decreases |events|
  {
    if events == [] {
      assert events + more == more;
    } else {
      Continue(Step(s, events[0]), events[1..], more);
      assert (events + more)[1..] == events[1..] + more;
    }
  }

  // ------------------------------------------------------------- a safe unlink loses nothing

  lemma {:induction false} SafeUnlinkKeeps(s: State, p: nat, more: seq<Event>)
    requires Inv(s) && p < |s.recorders| && s.recorders[p].Unlinking? && SafeStep(s, RecorderActs(p, Works))
    requires UnlinkFree(Step(s, RecorderActs(p, Works)), more)
    ensures Kept(RunFrom(Step(s, RecorderActs(p, Works)), more))
  {
    StepKeeps(s, RecorderActs(p, Works));
    UnlinkFreeKeeps(Step(s, RecorderActs(p, Works)), more);
  }

  // ------------------------------------------------------------- any other unlink may lose a lock

  const SAMPLE_BODY := Body("direct_operate", [("crob", 0)], "", "RESPONSE_TIMEOUT", "1", true, true)

  /** Two of the three operations with which a new recorder locks a DUT. */
  lemma {:induction false} CreatedInTwo(s: State, d: string, body: Body)
    requires ValidBody(body) && Active(d) !in s.files
    ensures var act := RecorderActs(|s.recorders|, Works);
            var t := Step(Step(Step(s, Record(d, body)), act), act);
            t == s.(files := s.files[Active(d) := File(s.serial + 1, Torn)], serial := s.serial + 2,
                    recorders := s.recorders + [Writing(d, Doc(s.serial, d, Open, body), s.serial + 1)])
  {
    var n, doc := |s.recorders|, Doc(s.serial, d, Open, body);
    var s1 := Step(s, Record(d, body));
    assert s1.recorders == s.recorders + [Reading(d, body)];
    var s2 := Step(s1, RecorderActs(n, Works));
    assert s2.recorders == s.recorders + [Creating(d, doc)];
    assert s2.recorders[n := Writing(d, doc, s2.serial)] == s.recorders + [Writing(d, doc, s2.serial)];
  }

  lemma {:induction false} RecordedInThree(s: State, d: string, body: Body)
    requires ValidBody(body) && Active(d) !in s.files
    ensures var act := RecorderActs(|s.recorders|, Works);
            var t := Step(Step(Step(Step(s, Record(d, body)), act), act), act);
            var doc := Doc(s.serial, d, Open, body);
            t == s.(files := s.files[Active(d) := File(s.serial + 1, Text(doc))], serial := s.serial + 2,
                    recorders := s.recorders + [Recorded(doc)],
                    shown := s.shown[s.serial := doc], told := s.told + {s.serial})
  {
    var n, doc := |s.recorders|, Doc(s.serial, d, Open, body);
    CreatedInTwo(s, d, body);
    var writing := s.recorders + [Writing(d, doc, s.serial + 1)];
    assert writing[n := Recorded(doc)] == s.recorders + [Recorded(doc)];
  }

  /** On a DUT without an active file a new recorder leaves a lock. */
  lemma {:induction false} NewLock(s: State, d: string) returns (events: seq<Event>)
    requires Active(d) !in s.files
    ensures UnlinkFree(s, events)
    ensures var t := RunFrom(s, events);
            var doc := Doc(s.serial, d, Open, SAMPLE_BODY);
            && t.files == s.files[Active(d) := File(s.serial + 1, Text(doc))] && t.ack == s.ack
            && t.shown == s.shown[s.serial := doc] && t.told == s.told + {s.serial}
  {
    var act := RecorderActs(|s.recorders|, Works);
    var s1 := Step(s, Record(d, SAMPLE_BODY));
    var s2 := Step(s1, act);
    RecordedInThree(s, d, SAMPLE_BODY);
    CreatedInTwo(s, d, SAMPLE_BODY);
    OneStep(s, Record(d, SAMPLE_BODY));
    OneStep(s1, act);
    OneStep(s2, act);
    OneStep(Step(s2, act), act);
    Continue(s2, [act], [act]);
    Continue(s1, [act], [act] + [act]);
    events := [Record(d, SAMPLE_BODY)] + ([act] + ([act] + [act]));
    Continue(s, [Record(d, SAMPLE_BODY)], [act] + ([act] + [act]));
  }

  lemma {:induction false} OneStep(s: State, e: Event)
    ensures RunFrom(s, [e]) == Step(s, e)
    ensures !Unlinks(s, e) ==> UnlinkFree(s, [e])
  {
    assert [e][1..] == [];
  }

  /** The acknowledger will remove the active file of the DUT, whatever it then holds. */
  predicate OnTheWay(s: State, d: string) {
    match s.ack
    case TempCreating(call, doc) => call.dut == d && Archive(doc.incident) !in s.files
    case TempWriting(call, doc, temp) => call.dut == d && Archive(doc.incident) !in s.files && Temp(temp) in s.files
    case Replacing(call, doc, temp) => call.dut == d && Archive(doc.incident) !in s.files && Temp(temp) in s.files
    case Archiving(call, doc) =>
      call.dut == d && (Archive(doc.incident) in s.files ==> Holds(s.files, Archive(doc.incident), doc))
    case Comparing(call, doc) => call.dut == d && Holds(s.files, Archive(doc.incident), doc)
    case ArchiveWriting(call, _, _) => call.dut == d
    case Releasing(call, _) => call.dut == d
    case _ => false
  }

  function OperationsLeft(a: Acknowledger): nat {
    match a
    case TempCreating(_, _) => 6
    case TempWriting(_, _, _) => 5
    case Replacing(_, _, _) => 4
    case Archiving(_, _) => 3
    case ArchiveWriting(_, _, _) => 2
    case Comparing(_, _) => 2
    case Releasing(_, _) => 1
    case _ => 0
  }

  predicate SameOutcomes(s: State, t: State, i: nat) {
    t.told == s.told && t.shown == s.shown && (!Archived(s, i) ==> !Archived(t, i))
  }

  lemma {:induction false} OneOperation(s: State, d: string, i: nat)
    requires OnTheWay(s, d) && s.ack.doc.incident != i
    ensures var t := Step(s, AcknowledgerActs(Works, 0));
            && SameOutcomes(s, t, i)
            && if s.ack.Releasing? then Active(d) !in t.files
               else OnTheWay(t, d) && t.ack.doc == s.ack.doc && OperationsLeft(t.ack) < OperationsLeft(s.ack)
  {
  }

  lemma {:induction false} AcknowledgerReleases(s: State, d: string, i: nat) returns (events: seq<Event>)
    requires OnTheWay(s, d) && s.ack.doc.incident != i
    ensures UnlinkFree(s, events) && SameOutcomes(s, RunFrom(s, events), i) && Active(d) !in RunFrom(s, events).files
    decreases OperationsLeft(s.ack)
  {
    var act := AcknowledgerActs(Works, 0);
    OneOperation(s, d, i);
    if s.ack.Releasing? {
      events := [act];
      OneStep(s, act);
    } else {
      var rest := AcknowledgerReleases(Step(s, act), d, i);
      events := [act] + rest;
      OneStep(s, act);
      Continue(s, [act], rest);
    }
  }

  /** Another lock in the place of the one the acknowledger works on is removed with it. */
  lemma {:induction false} ReplacedLockIsLost(s: State, d: string) returns (events: seq<Event>, i: nat)
    requires Active(d) !in s.files && OnTheWay(s, d) && s.ack.doc.incident != s.serial && Archive(s.serial) !in s.files
    ensures UnlinkFree(s, events) && LostAt(RunFrom(s, events), d, i)
  {
    var first := NewLock(s, d);
    var t := RunFrom(s, first);
    var rest := AcknowledgerReleases(t, d, s.serial);
    events, i := first + rest, s.serial;
    Continue(s, first, rest);
  }

  /** In a state the protocol reaches, the acknowledger that depends on the active file is on its way. */
  lemma {:induction false} DependingIsOnTheWay(s: State, d: string)
    requires Inv(s) && Active(d) in s.files && WillReplaceOrRemove(s, d)
    ensures s.files[Active(d)].content.Text? && OnTheWay(s, d) && s.ack.doc.incident < s.serial
  {
    assert ActiveFits(s, d);
  }

  /** The writer of the torn file completes a text that has no name any more. */
  lemma {:induction false} OrphanIsLost(s: State, p: nat, q: nat) returns (events: seq<Event>, i: nat)
    requires Inv(s) && p < |s.recorders| && s.recorders[p].Unlinking?
    requires q < |s.recorders| && WritesTo(s.recorders[q], s.recorders[p].dut)
    ensures var t := Step(s, RecorderActs(p, Works));
            UnlinkFree(t, events) && LostAt(RunFrom(t, events), s.recorders[p].dut, i)
  {
    var t, d := Step(s, RecorderActs(p, Works)), s.recorders[p].dut;
    var act := RecorderActs(q, Works);
    assert RecorderOk(s.recorders[q], s);
    i := s.recorders[q].doc.incident;
    assert Archive(i) in s.files ==> ArchiveFits(s, i);
    events := [act];
    OneStep(t, act);
    assert t.recorders[q] == s.recorders[q] && Active(d) !in t.files;
  }

  /** An unlink of a file that somebody needs: a continuation without any further unlink loses a lock. */
  lemma {:induction false} NeededUnlinkLoses(s: State, p: nat) returns (events: seq<Event>, i: nat)
    requires Inv(s) && p < |s.recorders| && s.recorders[p].Unlinking? && !SafeStep(s, RecorderActs(p, Works))
    ensures var t := Step(s, RecorderActs(p, Works));
            UnlinkFree(t, events) && LostAt(RunFrom(t, events), s.recorders[p].dut, i)
  {
    var t, d := Step(s, RecorderActs(p, Works)), s.recorders[p].dut;
    assert ActiveFits(s, d) && Active(d) !in t.files;
    if s.files[Active(d)].content.Torn? {
      var q :| 0 <= q < |s.recorders| && WritesTo(s.recorders[q], d);
      events, i := OrphanIsLost(s, p, q);
    } else if WillReplaceOrRemove(s, d) {
      DependingIsOnTheWay(s, d);
      assert s.serial !in s.shown;
      assert Archive(s.serial) in s.files ==> ArchiveFits(s, s.serial);
      events, i := ReplacedLockIsLost(t, d);
    } else {
      i := s.files[Active(d)].content.doc.incident;
      assert s.shown[i].dut == d;
      if !Archived(s, i) {
        events := [];
      } else {
        var act := AcknowledgerActs(Works, 0);
        events := [act];
        OneStep(t, act);
      }
    }
  }

  /** No continuation without a further unlink loses a reported incident. */
  ghost predicate LosesNothing(s: State) {
    forall more: seq<Event> :: UnlinkFree(s, more) ==> Kept(RunFrom(s, more))
  }

  lemma {:induction false} SafeUnlinkLosesNothing(s: State, p: nat)
    requires Inv(s) && p < |s.recorders| && s.recorders[p].Unlinking? && SafeStep(s, RecorderActs(p, Works))
    ensures LosesNothing(Step(s, RecorderActs(p, Works)))
  {
    var t := Step(s, RecorderActs(p, Works));
    forall more: seq<Event> | UnlinkFree(t, more) ensures Kept(RunFrom(t, more)) { SafeUnlinkKeeps(s, p, more); }
  }

  lemma {:induction false} LostMeansLoss(t: State, more: seq<Event>, d: string, i: nat)
    requires UnlinkFree(t, more) && LostAt(RunFrom(t, more), d, i)
    ensures !LosesNothing(t)
  {
    assert !Covered(RunFrom(t, more), i);
    assert !Kept(RunFrom(t, more));
  }

  /**
   * Exactly when the failure handler's unlink is harmless, in every state that safe runs reach: it
   * finds no file, or one that nobody needs.  Then no continuation without a further unlink loses
   * an incident; otherwise one does, and leaves control clear.
   */
  lemma {:induction false} UnlinkIsHarmlessExactly(events: seq<Event>, p: nat)
    requires SafeRun(events) && p < |Run(events).recorders| && Run(events).recorders[p].Unlinking?
    ensures var s := Run(events);
            var d := s.recorders[p].dut;
            (Active(d) in s.files ==> !Needed(s, d)) <==> LosesNothing(Step(s, RecorderActs(p, Works)))
  {
    var s := Run(events);
    RunKeeps(events);
    if SafeStep(s, RecorderActs(p, Works)) {
      SafeUnlinkLosesNothing(s, p);
    } else {
      var more, i := NeededUnlinkLoses(s, p);
      LostMeansLoss(Step(s, RecorderActs(p, Works)), more, s.recorders[p].dut, i);
    }
  }

  // ------------------------------------------------------------- runs that lose a lock

  lemma {:induction false} RunSnoc(events: seq<Event>, e: Event)
    ensures Run(events + [e]) == Step(Run(events), e)
  {
    assert (events + [e])[..|events|] == events;
  }

  /** A recorder's text is complete and visible, but its fsync failed: its unlink is still to come. */
  lemma {:induction false} VisibleButFailed(d: string, body: Body) returns (events: seq<Event>)
    requires ValidBody(body)
    ensures Run(events) == State(map[Active(d) := File(1, Text(Doc(0, d, Open, body)))], 2, [Unlinking(d, 1)],
                                 NoCall, map[0 := Doc(0, d, Open, body)], {}, [])
  {
    var s1 := Step(START, Record(d, body));
    var s2 := Step(s1, RecorderActs(0, Works));
    var s3 := Step(s2, RecorderActs(0, Works));
    var s4 := Step(s3, RecorderActs(0, SyncFails));
    assert s1.recorders == [Reading(d, body)];
    assert s2.recorders == [Creating(d, Doc(0, d, Open, body))];
    assert s3.recorders == [Writing(d, Doc(0, d, Open, body), 1)] && s3.files == map[Active(d) := File(1, Torn)];
    events := [];
    RunSnoc([], Record(d, body));
    RunSnoc([] + [Record(d, body)], RecorderActs(0, Works));
    events := [] + [Record(d, body)] + [RecorderActs(0, Works)];
    RunSnoc(events, RecorderActs(0, Works));
    RunSnoc(events + [RecorderActs(0, Works)], RecorderActs(0, SyncFails));
    events := events + [RecorderActs(0, Works)] + [RecorderActs(0, SyncFails)];
    assert s4.recorders == [Unlinking(d, 1)];
  }

  function Acted(s: State, now: nat): State {
    Step(s, AcknowledgerActs(Works, now))
  }

  lemma {:induction false} ReplacedInFour(s: State, call: Call, doc: Doc, now: nat)
    requires s.ack == ReadingActive(call) && Holds(s.files, Active(call.dut), doc) && doc.status.Open? && call.inputsOk
    requires doc.dut == call.dut && doc.incident == call.incident && Temp(s.serial) !in s.files
    ensures var t := Acted(Acted(Acted(Acted(s, now), now), now), now);
            var acknowledged := doc.(status := Acknowledged(call.data, now));
            t == s.(ack := Archiving(call, acknowledged), serial := s.serial + 1,
                    files := s.files[Active(call.dut) := File(s.serial, Text(acknowledged))])
  {
    var acknowledged := doc.(status := Acknowledged(call.data, now));
    var s2 := Acted(s, now);
    assert s2.ack == TempCreating(call, acknowledged);
    var s4 := Acted(Acted(s2, now), now);
    assert s4.ack == Replacing(call, acknowledged, s.serial);
  }

  /** Seven operations acknowledge an open incident and remove its lock. */
  lemma {:induction false} AcknowledgedInSeven(s: State, call: Call, doc: Doc, now: nat)
    requires s.ack.NoCall? && Holds(s.files, Active(call.dut), doc) && doc.status.Open? && call.inputsOk
    requires doc.dut == call.dut && doc.incident == call.incident
    requires Archive(doc.incident) !in s.files && Temp(s.serial) !in s.files
    ensures var s1 := Step(s, Acknowledge(call));
            var t := Acted(Acted(Acted(Acted(Acted(Acted(Acted(s1, now), now), now), now), now), now), now);
            var acknowledged := doc.(status := Acknowledged(call.data, now));
            && t.files == (s.files - {Active(call.dut)})[Archive(doc.incident) := File(s.serial + 1, Text(acknowledged))]
            && t.serial == s.serial + 2 && t.recorders == s.recorders && t.ack.NoCall?
            && t.shown == s.shown && t.told == s.told
  {
    var s1 := Step(s, Acknowledge(call));
    var acknowledged := doc.(status := Acknowledged(call.data, now));
    ReplacedInFour(s1, call, doc, now);
    var s5 := Acted(Acted(Acted(Acted(s1, now), now), now), now);
    assert Archive(doc.incident) !in s5.files;
    var s7 := Acted(Acted(s5, now), now);
    assert s7.ack == Releasing(call, acknowledged);
  }

  lemma {:induction false} SevenActs(events: seq<Event>, now: nat) returns (more: seq<Event>)
    ensures Run(more) == Acted(Acted(Acted(Acted(Acted(Acted(Acted(Run(events), now), now), now), now), now), now), now)
  {
    var act := AcknowledgerActs(Works, now);
    more := events;
    RunSnoc(more, act);
    more := more + [act];
    RunSnoc(more, act);
    more := more + [act];
    RunSnoc(more, act);
    more := more + [act];
    RunSnoc(more, act);
    more := more + [act];
    RunSnoc(more, act);
    more := more + [act];
    RunSnoc(more, act);
    more := more + [act];
    RunSnoc(more, act);
    more := more + [act];
  }

  /** The visible text is acknowledged and released; the failed recorder's unlink is still to come. */
  lemma {:induction false} ReleasedBeforeUnlink(d: string, body: Body, data: AckData) returns (events: seq<Event>)
    requires ValidBody(body)
    ensures var s := Run(events);
            && s.recorders == [Unlinking(d, 1)] && Active(d) !in s.files && s.serial == 4
            && (forall i :: Archive(i) in s.files ==> i == 0) && s.ack.NoCall?
  {
    var first := VisibleButFailed(d, body);
    var call := Call(d, 0, data, true);
    AcknowledgedInSeven(Run(first), call, Doc(0, d, Open, body), 0);
    RunSnoc(first, Acknowledge(call));
    events := SevenActs(first + [Acknowledge(call)], 0);
  }

  /** The late unlink removes another incident's complete lock. */
  lemma {:induction false} LateUnlinkRemoves(t: State, d: string, body: Body)
    requires ValidBody(body) && t.recorders == [Unlinking(d, 1)] && Active(d) !in t.files && Archive(t.serial) !in t.files
    ensures var act := RecorderActs(1, Works);
            var u := Step(Step(Step(Step(t, Record(d, body)), act), act), act);
            LostAt(Step(u, RecorderActs(0, Works)), d, t.serial)
  {
    RecordedInThree(t, d, body);
  }

  /**
   * With a failed fsync the protocol loses a lock: the recorder's text was already visible, it is
   * acknowledged and archived, a new incident locks the DUT, and then the first recorder's
   * handler unlinks the new lock by its path.
   */
  lemma {:induction false} LateUnlinkLosesLock(d: string, body: Body, data: AckData) returns (events: seq<Event>, i: nat)
    requires ValidBody(body)
    ensures LostAt(Run(events), d, i)
  {
    var middle := ReleasedBeforeUnlink(d, body, data);
    var act := RecorderActs(1, Works);
    LateUnlinkRemoves(Run(middle), d, body);
    RunSnoc(middle, Record(d, body));
    RunSnoc(middle + [Record(d, body)], act);
    RunSnoc(middle + [Record(d, body)] + [act], act);
    RunSnoc(middle + [Record(d, body)] + [act] + [act], act);
    var last := middle + [Record(d, body)] + [act] + [act] + [act];
    RunSnoc(last, RecorderActs(0, Works));
    events, i := last + [RecorderActs(0, Works)], Run(middle).serial;
  }

  /** The late unlink removes the name of a file that is still being written. */
  lemma {:induction false} LateUnlinkOrphans(t: State, d: string, body: Body)
    requires ValidBody(body) && t.recorders == [Unlinking(d, 1)] && Active(d) !in t.files && Archive(t.serial) !in t.files
    ensures var act := RecorderActs(1, Works);
            var u := Step(Step(Step(t, Record(d, body)), act), act);
            var v := Step(Step(u, RecorderActs(0, Works)), act);
            LostAt(v, d, t.serial) && v.recorders == [RecordFailed, Recorded(v.shown[t.serial])]
  {
    var act := RecorderActs(1, Works);
    var u := Step(Step(Step(t, Record(d, body)), act), act);
    var writing := Writing(d, Doc(t.serial, d, Open, body), t.serial + 1);
    CreatedInTwo(t, d, body);
    assert u.recorders == [Unlinking(d, 1), writing];
    assert Step(u, RecorderActs(0, Works)).recorders == [RecordFailed, writing];
  }

  /**
   * As before, but the unlink comes while the new file is still torn: its writer goes on to record
   * its incident in a file that has no name.
   */
  lemma {:induction false} LateUnlinkOrphansWriter(d: string, body: Body, data: AckData)
    returns (events: seq<Event>, i: nat)
    requires ValidBody(body)
    ensures var s := Run(events);
            && LostAt(s, d, i) && s.recorders == [RecordFailed, Recorded(s.shown[i])]
  {
    var middle := ReleasedBeforeUnlink(d, body, data);
    var act := RecorderActs(1, Works);
    LateUnlinkOrphans(Run(middle), d, body);
    RunSnoc(middle, Record(d, body));
    RunSnoc(middle + [Record(d, body)], act);
    RunSnoc(middle + [Record(d, body)] + [act], act);
    var torn := middle + [Record(d, body)] + [act] + [act];
    RunSnoc(torn, RecorderActs(0, Works));
    RunSnoc(torn + [RecorderActs(0, Works)], act);
    events, i := torn + [RecorderActs(0, Works)] + [act], Run(middle).serial;
  }

  /**
   * Even the unlink of the recorder's own file can lose a lock: the acknowledger has read its text
   * and will replace whatever the path holds by then.
   */
  lemma {:induction false} OwnUnlinkLosesLock(d: string, body: Body, data: AckData)
    returns (events: seq<Event>, more: seq<Event>, i: nat)
    requires ValidBody(body)
    ensures var s := Run(events);
            var t := Step(s, RecorderActs(0, Works));
            && s.recorders == [Unlinking(d, 1)] && Active(d) in s.files && s.files[Active(d)].inode == 1
            && UnlinkFree(t, more) && LostAt(RunFrom(t, more), d, i)
  {
    var first := VisibleButFailed(d, body);
    var call := Call(d, 0, data, true);
    RunSnoc(first, Acknowledge(call));
    RunSnoc(first + [Acknowledge(call)], AcknowledgerActs(Works, 0));
    events := first + [Acknowledge(call)] + [AcknowledgerActs(Works, 0)];
    var s := Run(events);
    assert s.ack == TempCreating(call, Doc(0, d, Acknowledged(data, 0), body));
    var t := Step(s, RecorderActs(0, Works));
    more, i := ReplacedLockIsLost(t, d);
  }
}
