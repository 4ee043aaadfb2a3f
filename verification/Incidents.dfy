// The uncertain-control lock: a file protocol of exclusive create, atomic replace, archive and
// unlink, run by any number of recorders and one acknowledger at a time, each of which may
// crash between any two file operations.

module Incidents {
  import opened Common

  // ------------------------------------------------------------- documents

  datatype Body = Body(
    operation: string, points: seq<(string, nat)>, payloadSha: string, code: string, requestId: string,
    executionUncertain: bool, mayStillExecute: bool)

  datatype AckData = AckData(author: string, summary: string, readbackSha: string, evidence: string)

  datatype Status = Open | Acknowledged(data: AckData, at: nat)

  datatype Doc = Doc(incident: nat, dut: string, status: Status, body: Body)

  const COMMAND_TYPES := {
    "crob", "analog_output_int16", "analog_output_int32", "analog_output_float32", "analog_output_double64"}

  predicate BoundedText(s: string, maximum: nat) {
    1 <= |s| <= maximum && forall i :: 0 <= i < |s| ==> s[i] >= ' ' || s[i] in "\t\n\r"
  }

  /** What `_validate_incident` asks of the fields a recorder fills in. */
  predicate ValidBody(b: Body) {
    && b.operation in {"select_and_operate", "direct_operate"}
    && 1 <= |b.points| <= 256
    && (forall i :: 0 <= i < |b.points| ==> b.points[i].0 in COMMAND_TYPES && b.points[i].1 <= 65535)
    && (forall i, j :: 0 <= i < j < |b.points| ==> b.points[i] != b.points[j])
    && BoundedText(b.code, 128) && BoundedText(b.requestId, 256)
    && (b.executionUncertain || b.mayStillExecute || b.code == "RESPONSE_TIMEOUT")
  }

  // ------------------------------------------------------------- files

  datatype Path = Active(dut: string) | Archive(incident: nat) | Temp(n: nat)

  /** A created file is torn until its whole text has been written. */
  datatype Content = Torn | Text(doc: Doc)

  /** `inode`: which creation the file comes from; a descriptor writes to it, not to the path. */
  datatype File = File(inode: nat, content: Content)

  type Files = map<Path, File>

  datatype Read = Absent | Unreadable | Present(doc: Doc)

  function ReadDocument(files: Files, path: Path): Read {
    if path !in files then Absent
    else match files[path].content
      case Torn => Unreadable
      case Text(doc) => Present(doc)
  }

  /** `get_active`: a record of another DUT is as bad as an unreadable one. */
  function GetActive(files: Files, dut: string): Read {
    var r := ReadDocument(files, Active(dut));
    if r.Present? && r.doc.dut != dut then Unreadable else r
  }

  predicate AssertClear(files: Files, dut: string) {
    GetActive(files, dut).Absent?
  }

  function WriteTo(files: Files, path: Path, inode: nat, content: Content): Files {
    if path in files && files[path].inode == inode then files[path := File(inode, content)] else files
  }

  // ------------------------------------------------------------- processes

  datatype Recorder =
    | Reading(dut: string, body: Body)
    | Creating(dut: string, doc: Doc)
    | Writing(dut: string, doc: Doc, inode: nat)
    | Unlinking(dut: string, inode: nat)
    | Rereading(dut: string)
    | Recorded(doc: Doc)
    | Coalesced(doc: Doc)
    | RecordFailed
    | Dead

  datatype Call = Call(dut: string, incident: nat, data: AckData, inputsOk: bool)

  datatype Acknowledger =
    | NoCall
    | ReadingActive(call: Call)
    | ReadingArchive(call: Call)
    | TempCreating(call: Call, doc: Doc)
    | TempWriting(call: Call, doc: Doc, temp: nat)
    | Replacing(call: Call, doc: Doc, temp: nat)
    | TempUnlinking(call: Call, temp: nat)
    | Archiving(call: Call, doc: Doc)
    | ArchiveWriting(call: Call, doc: Doc, inode: nat)
    | ArchiveUnlinking(call: Call, doc: Doc)
    | Comparing(call: Call, doc: Doc)
    | Releasing(call: Call, doc: Doc)

  /** `None`: the call raised. */
  datatype Reply = Reply(call: Call, doc: Option<Doc>)

  /**
   * No step reads `shown`, the incidents whose text was completed, `told`, those of which a recorder
   * told its caller that they are open and lock the DUT, or `answers`.
   */
  datatype State = State(
    files: Files, serial: nat, recorders: seq<Recorder>, ack: Acknowledger, shown: map<nat, Doc>, told: set<nat>,
    answers: seq<Reply>)

  const START := State(map[], 0, [], NoCall, map[], {}, [])

  /** How a file operation ends: it works, it fails, or the text is complete but fsync fails. */
  datatype Luck = Works | Fails | SyncFails

  function Next(s: State, p: nat, r: Recorder): State
    requires p < |s.recorders|
  {
    s.(recorders := s.recorders[p := r])
  }

  /** A recorder that finds a record returns it; its caller relies on it if it is still open. */
  function Coalesce(s: State, p: nat, doc: Doc): State
    requires p < |s.recorders|
  {
    Next(s, p, Coalesced(doc)).(told := if doc.status.Open? then s.told + {doc.incident} else s.told)
  }

  function RecorderStep(s: State, p: nat, luck: Luck): State
    requires p < |s.recorders|
  {
    match s.recorders[p]
    case Reading(dut, body) =>
      (match GetActive(s.files, dut)
       case Absent =>
         if ValidBody(body)
         then Next(s, p, Creating(dut, Doc(s.serial, dut, Open, body))).(serial := s.serial + 1)
         else Next(s, p, RecordFailed)
       case Unreadable => Next(s, p, RecordFailed)
       case Present(doc) => Coalesce(s, p, doc))
    case Creating(dut, doc) =>
      if Active(dut) in s.files then Next(s, p, Rereading(dut))
      else Next(s, p, Writing(dut, doc, s.serial))
             .(files := s.files[Active(dut) := File(s.serial, Torn)], serial := s.serial + 1)
    case Writing(dut, doc, inode) =>
      (match luck
       case Works => Next(s, p, Recorded(doc)).(files := WriteTo(s.files, Active(dut), inode, Text(doc)),
                                                shown := s.shown[doc.incident := doc], told := s.told + {doc.incident})
       case Fails => Next(s, p, Unlinking(dut, inode))
       case SyncFails => Next(s, p, Unlinking(dut, inode)).(files := WriteTo(s.files, Active(dut), inode, Text(doc)),
                                                            shown := s.shown[doc.incident := doc]))
    case Unlinking(dut, _) =>
      Next(s, p, RecordFailed).(files := if luck.Fails? then s.files else s.files - {Active(dut)})
    case Rereading(dut) =>
      var r := GetActive(s.files, dut);
      if r.Present? then Coalesce(s, p, r.doc) else Next(s, p, RecordFailed)
    case _ => s
  }

  function Raise(s: State): State
    requires !s.ack.NoCall?
  {
    s.(ack := NoCall, answers := s.answers + [Reply(s.ack.call, None)])
  }

  function Answer(s: State, doc: Doc): State
    requires !s.ack.NoCall?
  {
    s.(ack := NoCall, answers := s.answers + [Reply(s.ack.call, Some(doc))])
  }

  /** What `acknowledge` decides from the active record. */
  function Judge(s: State, call: Call, doc: Doc, now: nat): State
    requires !s.ack.NoCall?
  {
    if doc.dut != call.dut || doc.incident != call.incident || !call.inputsOk then Raise(s)
    else match doc.status
      case Acknowledged(data, _) => if data == call.data then s.(ack := Archiving(call, doc)) else Raise(s)
      case Open => s.(ack := TempCreating(call, doc.(status := Acknowledged(call.data, now))))
  }

  function AckStep(s: State, luck: Luck, now: nat): State {
    match s.ack
    case NoCall => s
    case ReadingActive(call) =>
      (match ReadDocument(s.files, Active(call.dut))
       case Absent => s.(ack := ReadingArchive(call))
       case Unreadable => Raise(s)
       case Present(doc) => Judge(s, call, doc, now))
    case ReadingArchive(call) =>
      var r := ReadDocument(s.files, Archive(call.incident));
      if r.Present? && r.doc.dut == call.dut then Answer(s, r.doc) else Raise(s)
    case TempCreating(call, doc) =>
      s.(ack := TempWriting(call, doc, s.serial), files := s.files[Temp(s.serial) := File(s.serial, Torn)],
         serial := s.serial + 1)
    case TempWriting(call, doc, temp) =>
      if luck.Works?
      then s.(ack := Replacing(call, doc, temp), files := WriteTo(s.files, Temp(temp), temp, Text(doc)))
      else s.(ack := TempUnlinking(call, temp),
              files := if luck.SyncFails? then WriteTo(s.files, Temp(temp), temp, Text(doc)) else s.files)
    case Replacing(call, doc, temp) =>
      if luck.Works? && Temp(temp) in s.files
      then s.(ack := Archiving(call, doc), files := s.files[Active(call.dut) := s.files[Temp(temp)]] - {Temp(temp)})
      else s.(ack := TempUnlinking(call, temp))
    case TempUnlinking(call, temp) => Raise(s.(files := if luck.Fails? then s.files else s.files - {Temp(temp)}))
    case Archiving(call, doc) =>
      if Archive(doc.incident) in s.files then s.(ack := Comparing(call, doc))
      else s.(ack := ArchiveWriting(call, doc, s.serial),
              files := s.files[Archive(doc.incident) := File(s.serial, Torn)], serial := s.serial + 1)
    case ArchiveWriting(call, doc, inode) =>
      if luck.Works?
      then s.(ack := Releasing(call, doc), files := WriteTo(s.files, Archive(doc.incident), inode, Text(doc)))
      else s.(ack := ArchiveUnlinking(call, doc),
              files := if luck.SyncFails? then WriteTo(s.files, Archive(doc.incident), inode, Text(doc)) else s.files)
    case ArchiveUnlinking(call, doc) =>
      Raise(s.(files := if luck.Fails? then s.files else s.files - {Archive(doc.incident)}))
    case Comparing(call, doc) =>
      if ReadDocument(s.files, Archive(doc.incident)) == Present(doc) then s.(ack := Releasing(call, doc)) else Raise(s)
    case Releasing(call, doc) =>
      if luck.Works? then Answer(s.(files := s.files - {Active(call.dut)}), doc) else Raise(s)
  }

  datatype Event =
    | Record(dut: string, body: Body)
    | RecorderActs(p: nat, luck: Luck)
    | RecorderCrashes(p: nat)
    | Acknowledge(call: Call)
    | AcknowledgerActs(luck: Luck, now: nat)
    | AcknowledgerCrashes

  function Step(s: State, e: Event): State {
    match e
    case Record(dut, body) => s.(recorders := s.recorders + [Reading(dut, body)])
    case RecorderActs(p, luck) => if p < |s.recorders| then RecorderStep(s, p, luck) else s
    case RecorderCrashes(p) => if p < |s.recorders| then Next(s, p, Dead) else s
    case Acknowledge(call) => if s.ack.NoCall? then s.(ack := ReadingActive(call)) else s
    case AcknowledgerActs(luck, now) => AckStep(s, luck, now)
    case AcknowledgerCrashes => s.(ack := NoCall)
  }

  function Run(events: seq<Event>): State {
    if events == [] then START else Step(Run(events[..|events| - 1]), events[|events| - 1])
  }

  // ------------------------------------------------------------- safe runs

  /** The text a path holds, if it holds one. */
  predicate Holds(files: Files, path: Path, doc: Doc) {
    path in files && files[path].content == Text(doc)
  }

  predicate Archived(s: State, i: nat) {
    Archive(i) in s.files && s.files[Archive(i)].content.Text?
  }

  predicate ArchiveTorn(s: State, i: nat) {
    Archive(i) in s.files && s.files[Archive(i)].content.Torn?
  }

  predicate WritesTo(r: Recorder, dut: string) {
    r.Writing? && r.dut == dut
  }

  /** The acknowledger will replace or remove the active file by its path. */
  predicate WillReplaceOrRemove(s: State, dut: string) {
    match s.ack
    case TempCreating(call, _) => call.dut == dut
    case TempWriting(call, _, _) => call.dut == dut
    case Replacing(call, _, _) => call.dut == dut
    case Archiving(call, doc) => call.dut == dut && !ArchiveTorn(s, doc.incident)
    case Comparing(call, doc) => call.dut == dut && !ArchiveTorn(s, doc.incident)
    case ArchiveWriting(call, _, _) => call.dut == dut
    case Releasing(call, _) => call.dut == dut
    case _ => false
  }

  /**
   * Somebody depends on the active file: the writer of a torn one, a caller who was told of the
   * incident while no archive record outlasts it, or the acknowledger on its way to the path.
   */
  predicate Needed(s: State, dut: string)
    requires Active(dut) in s.files
  {
    match s.files[Active(dut)].content
    case Torn => exists q :: 0 <= q < |s.recorders| && WritesTo(s.recorders[q], dut)
    case Text(doc) =>
      || (doc.incident in s.told
          && (!Archived(s, doc.incident) || (s.ack.ArchiveUnlinking? && s.ack.doc.incident == doc.incident)))
      || WillReplaceOrRemove(s, dut)
  }

  /** A recorder's failure handler unlinks by path. */
  predicate Unlinks(s: State, e: Event) {
    e.RecorderActs? && e.p < |s.recorders| && s.recorders[e.p].Unlinking? && !e.luck.Fails?
  }

  predicate SafeStep(s: State, e: Event) {
    Unlinks(s, e) && Active(s.recorders[e.p].dut) in s.files ==> !Needed(s, s.recorders[e.p].dut)
  }

  /** Every failure handler's unlink finds a file that nobody needs, or none. */
  predicate SafeRun(events: seq<Event>) {
    events == []
    || (SafeRun(events[..|events| - 1]) && SafeStep(Run(events[..|events| - 1]), events[|events| - 1]))
  }

  // ------------------------------------------------------------- invariant

  /** A form of the incident whose text was completed. */
  predicate FormOf(doc: Doc, s: State) {
    doc.incident in s.shown && doc.(status := Open) == s.shown[doc.incident]
  }

  ghost predicate ActiveOk(s: State) {
    forall d: string :: Active(d) in s.files ==> ActiveFits(s, d)
  }

  predicate ActiveFits(s: State, d: string)
    requires Active(d) in s.files
  {
    var content := s.files[Active(d)].content;
    content.Text? ==> content.doc.dut == d && FormOf(content.doc, s) && ArchiveAgrees(s, content.doc)
  }

  /** The archive never disagrees with the active record of the same incident. */
  predicate ArchiveAgrees(s: State, doc: Doc) {
    Archive(doc.incident) in s.files ==>
      doc.status.Acknowledged?
      && (s.files[Archive(doc.incident)].content.Torn? || Holds(s.files, Archive(doc.incident), doc))
  }

  ghost predicate ArchiveOk(s: State) {
    forall i: nat :: Archive(i) in s.files ==> ArchiveFits(s, i)
  }

  predicate ArchiveFits(s: State, i: nat)
    requires Archive(i) in s.files
  {
    var content := s.files[Archive(i)].content;
    i in s.shown &&
    (content.Text? ==> content.doc.incident == i && content.doc.status.Acknowledged? && FormOf(content.doc, s))
  }

  /** The active record of the DUT is that of the incident. */
  predicate ActiveIs(s: State, dut: string, i: nat) {
    var path := Active(dut);
    path in s.files && s.files[path].content.Text? && s.files[path].content.doc.incident == i
  }

  predicate Locked(s: State, i: nat)
    requires i in s.shown
  {
    ActiveIs(s, s.shown[i].dut, i)
  }

  /** The incident still locks its DUT, or its acknowledged record is in the archive. */
  predicate Covered(s: State, i: nat) {
    i in s.shown && (Locked(s, i) || Archived(s, i))
  }

  ghost predicate Kept(s: State) {
    forall i :: i in s.told ==> Covered(s, i)
  }

  ghost predicate ShownOk(s: State) {
    forall i :: i in s.shown ==> s.shown[i].incident == i && s.shown[i].status.Open? && i < s.serial
  }

  /** A recorder between its create and its write owns the torn active file. */
  ghost predicate WriterOk(r: Recorder, s: State) {
    && (r.Writing? ==> Active(r.dut) in s.files && s.files[Active(r.dut)] == File(r.inode, Torn) && r.inode < s.serial)
    && (Drafts(r) ==> r.doc.dut == r.dut && r.doc.status.Open? && r.doc.incident < s.serial
                      && r.doc.incident !in s.shown)
  }

  ghost predicate RecorderOk(r: Recorder, s: State) {
    WriterOk(r, s) && ReturnOk(r, s)
  }

  /** What a recorder returns is a form of a completed incident; an open one is told. */
  predicate ReturnOk(r: Recorder, s: State) {
    r.Recorded? || r.Coalesced? ==>
      FormOf(r.doc, s) && (r.doc.status.Open? ==> r.doc.incident in s.told) && (r.Recorded? ==> r.doc.status.Open?)
  }

  ghost predicate RecordersOk(s: State) {
    && (forall p :: 0 <= p < |s.recorders| ==> RecorderOk(s.recorders[p], s))
    && (forall p, q :: 0 <= p < q < |s.recorders| && s.recorders[p].Writing? && s.recorders[q].Writing? ==>
          s.recorders[p].inode != s.recorders[q].inode)
    && (forall p, q :: 0 <= p < q < |s.recorders| && Drafts(s.recorders[p]) && Drafts(s.recorders[q]) ==>
          s.recorders[p].doc.incident != s.recorders[q].doc.incident)
  }

  predicate Drafts(r: Recorder) {
    r.Writing? || r.Creating?
  }

  /** The acknowledger's place in the protocol. */
  ghost predicate AckOk(s: State) {
    match s.ack
    case NoCall => true
    case ReadingActive(_) => true
    case ReadingArchive(call) => Archived(s, call.incident) ==> !ActiveIs(s, call.dut, call.incident)
    case TempCreating(call, doc) => Pending(s, call, doc)
    case TempWriting(call, doc, temp) =>
      Pending(s, call, doc) && temp < s.serial && Temp(temp) in s.files && s.files[Temp(temp)] == File(temp, Torn)
    case Replacing(call, doc, temp) => Pending(s, call, doc) && Holds(s.files, Temp(temp), doc)
    case TempUnlinking(_, _) => true
    case Archiving(call, doc) => Settled(s, call, doc) || ArchiveTorn(s, doc.incident)
    case ArchiveWriting(call, doc, inode) =>
      Settled(s, call, doc) && Archive(doc.incident) in s.files
      && s.files[Archive(doc.incident)] == File(inode, Torn)
    case ArchiveUnlinking(call, doc) =>
      && Archive(doc.incident) in s.files && Unanswered(s, doc.incident)
      && (doc.incident in s.told ==> Settled(s, call, doc))
    case Comparing(call, doc) =>
      Archive(doc.incident) in s.files && (Settled(s, call, doc) || ArchiveTorn(s, doc.incident))
    case Releasing(call, doc) => Settled(s, call, doc) && Holds(s.files, Archive(doc.incident), doc)
  }

  predicate Unanswered(s: State, i: nat) {
    forall k :: 0 <= k < |s.answers| ==> s.answers[k].doc.Some? ==> s.answers[k].call.incident != i
  }

  /** The active record is open and `doc` is its acknowledged form. */
  predicate Pending(s: State, call: Call, doc: Doc) {
    && doc.dut == call.dut && doc.incident == call.incident && doc.status.Acknowledged? && doc.status.data == call.data
    && Holds(s.files, Active(call.dut), doc.(status := Open))
  }

  /** The active record is the acknowledged `doc`. */
  predicate Settled(s: State, call: Call, doc: Doc) {
    && doc.dut == call.dut && doc.incident == call.incident && doc.status.Acknowledged? && doc.status.data == call.data
    && Holds(s.files, Active(call.dut), doc)
  }

  /** A returned document is the archived one, and its lock is gone. */
  ghost predicate AnswersOk(s: State) {
    forall k :: 0 <= k < |s.answers| ==> AnswerOk(s, s.answers[k])
  }

  predicate AnswerOk(s: State, r: Reply) {
    r.doc.Some? ==>
      && r.doc.value.incident == r.call.incident
      && Holds(s.files, Archive(r.call.incident), r.doc.value)
      && !ActiveIs(s, r.doc.value.dut, r.call.incident)
  }

  ghost predicate FilesOk(s: State) {
    ActiveOk(s) && ArchiveOk(s) && ShownOk(s) && Kept(s)
  }

  ghost predicate Inv(s: State) {
    FilesOk(s) && RecordersOk(s) && AckOk(s) && AnswersOk(s)
  }

  // ------------------------------------------------------------- preservation: recorders

  lemma {:induction false} CreatingKeepsFiles(s: State, p: nat, luck: Luck)
    requires Inv(s) && p < |s.recorders| && s.recorders[p].Creating?
    ensures FilesOk(RecorderStep(s, p, luck))
  {
    var t := RecorderStep(s, p, luck);
    forall d | Active(d) in t.files ensures ActiveFits(t, d) {
      if Active(d) in s.files { assert ActiveFits(s, d); }
    }
    forall i | Archive(i) in t.files ensures ArchiveFits(t, i) { assert ArchiveFits(s, i); }
    forall i | i in t.told ensures Covered(t, i) { assert Covered(s, i); }
  }

  lemma {:induction false} WritingKeepsFiles(s: State, p: nat, luck: Luck)
    requires Inv(s) && p < |s.recorders| && s.recorders[p].Writing?
    ensures FilesOk(RecorderStep(s, p, luck))
  {
    assert RecorderOk(s.recorders[p], s);
    var t := RecorderStep(s, p, luck);
    forall d | Active(d) in t.files ensures ActiveFits(t, d) { assert ActiveFits(s, d); }
    forall i | Archive(i) in t.files ensures ArchiveFits(t, i) { assert ArchiveFits(s, i); }
    forall i | i in t.told ensures Covered(t, i) { assert i in s.told ==> Covered(s, i); }
  }

  lemma {:induction false} UnlinkingKeepsFiles(s: State, p: nat, luck: Luck)
    requires Inv(s) && p < |s.recorders| && s.recorders[p].Unlinking? && SafeStep(s, RecorderActs(p, luck))
    ensures FilesOk(RecorderStep(s, p, luck))
  {
    var t := RecorderStep(s, p, luck);
    forall d | Active(d) in t.files ensures ActiveFits(t, d) { assert ActiveFits(s, d); }
    forall i | Archive(i) in t.files ensures ArchiveFits(t, i) { assert ArchiveFits(s, i); }
    forall i | i in t.told ensures Covered(t, i) { assert Covered(s, i); }
  }

  /** Who finds a record and returns it changes no file, and that record locks its DUT. */
  lemma {:induction false} FindingKeepsFiles(s: State, p: nat, doc: Doc)
    requires FilesOk(s) && p < |s.recorders| && (s.recorders[p].Reading? || s.recorders[p].Rereading?)
    requires GetActive(s.files, s.recorders[p].dut) == Present(doc)
    ensures FilesOk(Coalesce(s, p, doc))
  {
    var t := Coalesce(s, p, doc);
    assert ActiveFits(s, s.recorders[p].dut);
    forall d | Active(d) in t.files ensures ActiveFits(t, d) { assert ActiveFits(s, d); }
    forall i | Archive(i) in t.files ensures ArchiveFits(t, i) { assert ArchiveFits(s, i); }
    forall i | i in t.told ensures Covered(t, i) { assert i in s.told ==> Covered(s, i); }
  }

  lemma {:induction false} ReadingKeepsFiles(s: State, p: nat, luck: Luck)
    requires FilesOk(s) && p < |s.recorders| && (s.recorders[p].Reading? || s.recorders[p].Rereading?)
    ensures FilesOk(RecorderStep(s, p, luck))
  {
    var found := GetActive(s.files, s.recorders[p].dut);
    if found.Present? {
      FindingKeepsFiles(s, p, found.doc);
    } else {
      SameRecordsKeep(s, RecorderStep(s, p, luck));
    }
  }

  lemma {:induction false} RecorderKeepsFiles(s: State, p: nat, luck: Luck)
    requires Inv(s) && p < |s.recorders| && SafeStep(s, RecorderActs(p, luck))
    ensures FilesOk(RecorderStep(s, p, luck))
  {
    match s.recorders[p]
    case Creating(_, _) => CreatingKeepsFiles(s, p, luck);
    case Writing(_, _, _) => WritingKeepsFiles(s, p, luck);
    case Unlinking(_, _) => UnlinkingKeepsFiles(s, p, luck);
    case Reading(_, _) => ReadingKeepsFiles(s, p, luck);
    case Rereading(_) => ReadingKeepsFiles(s, p, luck);
    case _ => SameRecordsKeep(s, RecorderStep(s, p, luck));
  }

  /** Nothing that was shown or told is taken back. */
  lemma {:induction false} HistoryGrows(s: State, p: nat, luck: Luck)
    requires RecordersOk(s) && p < |s.recorders|
    ensures var t := RecorderStep(s, p, luck);
            s.told <= t.told && forall i :: i in s.shown ==> i in t.shown && t.shown[i] == s.shown[i]
  {
    assert RecorderOk(s.recorders[p], s);
  }

  lemma {:induction false} OtherWriterStands(s: State, p: nat, luck: Luck, q: nat)
    requires Inv(s) && p < |s.recorders| && q < |s.recorders| && p != q && SafeStep(s, RecorderActs(p, luck))
    ensures WriterOk(s.recorders[q], RecorderStep(s, p, luck))
    ensures RecorderStep(s, p, luck).recorders[q] == s.recorders[q]
  {
    assert RecorderOk(s.recorders[p], s) && RecorderOk(s.recorders[q], s);
    assert s.recorders[p].Writing? && s.recorders[q].Writing? ==> s.recorders[p].inode != s.recorders[q].inode;
    assert Drafts(s.recorders[p]) && Drafts(s.recorders[q]) ==>
      s.recorders[p].doc.incident != s.recorders[q].doc.incident;
    assert s.recorders[p].Unlinking? && s.recorders[q].Writing? && s.recorders[p].dut == s.recorders[q].dut ==>
      WritesTo(s.recorders[q], s.recorders[p].dut);
  }

  lemma {:induction false} OtherRecorderStands(s: State, p: nat, luck: Luck, q: nat)
    requires Inv(s) && p < |s.recorders| && q < |s.recorders| && p != q && SafeStep(s, RecorderActs(p, luck))
    ensures RecorderOk(s.recorders[q], RecorderStep(s, p, luck))
    ensures RecorderStep(s, p, luck).recorders[q] == s.recorders[q]
  {
    OtherWriterStands(s, p, luck, q);
    HistoryGrows(s, p, luck);
    assert RecorderOk(s.recorders[q], s);
  }

  lemma {:induction false} OwnReturnIsTold(s: State, p: nat, luck: Luck)
    requires Inv(s) && p < |s.recorders|
    ensures ReturnOk(RecorderStep(s, p, luck).recorders[p], RecorderStep(s, p, luck))
  {
    var r := s.recorders[p];
    assert RecorderOk(r, s);
    if (r.Reading? || r.Rereading?) && Active(r.dut) in s.files { assert ActiveFits(s, r.dut); }
  }

  lemma {:induction false} OwnWriterAdvances(s: State, p: nat, luck: Luck)
    requires Inv(s) && p < |s.recorders|
    ensures var t := RecorderStep(s, p, luck);
            var r, u := s.recorders[p], t.recorders[p];
            && |t.recorders| == |s.recorders| && WriterOk(u, t)
            && (u.Writing? ==> (r.Writing? && u.inode == r.inode) || u.inode == s.serial)
            && (Drafts(u) ==> (Drafts(r) && u.doc.incident == r.doc.incident) || u.doc.incident == s.serial)
  {
    assert RecorderOk(s.recorders[p], s);
  }

  lemma {:induction false} RecorderKeepsRecorders(s: State, p: nat, luck: Luck)
    requires Inv(s) && p < |s.recorders| && SafeStep(s, RecorderActs(p, luck))
    ensures RecordersOk(RecorderStep(s, p, luck))
  {
    OwnWriterAdvances(s, p, luck);
    OwnReturnIsTold(s, p, luck);
    forall q | 0 <= q < |s.recorders| && q != p
      ensures RecorderOk(s.recorders[q], RecorderStep(s, p, luck)) && RecorderOk(s.recorders[q], s)
      ensures RecorderStep(s, p, luck).recorders[q] == s.recorders[q]
    {
      OtherRecorderStands(s, p, luck, q);
    }
  }

  /** Only an unlink takes a complete text away from its path. */
  lemma {:induction false} TextStaysActive(s: State, p: nat, luck: Luck, path: Path)
    requires Inv(s) && p < |s.recorders| && path in s.files
    requires Unlinks(s, RecorderActs(p, luck)) ==> path != Active(s.recorders[p].dut)
    ensures var t := RecorderStep(s, p, luck);
            path.Temp? || path.Archive? || s.files[path].content.Text? ==> path in t.files && t.files[path] == s.files[path]
  {
    assert RecorderOk(s.recorders[p], s);
  }

  lemma {:induction false} NoNewArchive(s: State, p: nat, luck: Luck, i: nat)
    requires p < |s.recorders|
    ensures var t := RecorderStep(s, p, luck);
            (Archive(i) in t.files <==> Archive(i) in s.files)
            && (Archive(i) in t.files ==> t.files[Archive(i)] == s.files[Archive(i)])
  {
  }

  lemma {:induction false} RecorderStepKeepsRest(s: State, p: nat, luck: Luck)
    requires p < |s.recorders|
    ensures var t := RecorderStep(s, p, luck);
            t.ack == s.ack && t.answers == s.answers && s.serial <= t.serial
  {
  }

  lemma {:induction false} OtherStepKeepsAck(s: State, p: nat, luck: Luck)
    requires Inv(s) && p < |s.recorders| && !Unlinks(s, RecorderActs(p, luck))
    ensures AckOk(RecorderStep(s, p, luck))
  {
    var t := RecorderStep(s, p, luck);
    RecorderStepKeepsRest(s, p, luck);
    assert RecorderOk(s.recorders[p], s);
    if s.ack.ReadingArchive? {
      if Archive(s.ack.call.incident) in s.files { assert ArchiveFits(s, s.ack.call.incident); }
    } else if s.ack.ArchiveUnlinking? {
      UnlinkingAckStands(s, p, luck);
    } else if !s.ack.NoCall? {
      forall path | path in s.files && (path.Temp? || path.Archive? || s.files[path].content.Text?)
        ensures path in t.files && t.files[path] == s.files[path]
      {
        TextStaysActive(s, p, luck, path);
      }
    }
  }

  /** No recorder is told of an incident that has an archive file. */
  lemma {:induction false} UnlinkingAckStands(s: State, p: nat, luck: Luck)
    requires Inv(s) && p < |s.recorders| && !Unlinks(s, RecorderActs(p, luck)) && s.ack.ArchiveUnlinking?
    ensures AckOk(RecorderStep(s, p, luck))
  {
    var i, r, t := s.ack.doc.incident, s.recorders[p], RecorderStep(s, p, luck);
    RecorderStepKeepsRest(s, p, luck);
    NoNewArchive(s, p, luck, i);
    assert ArchiveFits(s, i) && RecorderOk(r, s);
    if (r.Reading? || r.Rereading?) && Active(r.dut) in s.files { assert ActiveFits(s, r.dut); }
    assert i in t.told ==> i in s.told;
    if i in s.told { TextStaysActive(s, p, luck, Active(s.ack.call.dut)); }
  }

  lemma {:induction false} UnlinkKeepsAck(s: State, p: nat, luck: Luck)
    requires Inv(s) && p < |s.recorders| && Unlinks(s, RecorderActs(p, luck)) && SafeStep(s, RecorderActs(p, luck))
    ensures AckOk(RecorderStep(s, p, luck))
  {
    var t := RecorderStep(s, p, luck);
    assert t.files == s.files - {Active(s.recorders[p].dut)} && t.ack == s.ack && t.told == s.told && t.answers == s.answers;
  }

  lemma {:induction false} RecorderKeepsAck(s: State, p: nat, luck: Luck)
    requires Inv(s) && p < |s.recorders| && SafeStep(s, RecorderActs(p, luck))
    ensures AckOk(RecorderStep(s, p, luck))
  {
    if Unlinks(s, RecorderActs(p, luck)) { UnlinkKeepsAck(s, p, luck); } else { OtherStepKeepsAck(s, p, luck); }
  }

  lemma {:induction false} RecorderKeepsAnswers(s: State, p: nat, luck: Luck)
    requires Inv(s) && p < |s.recorders|
    ensures AnswersOk(RecorderStep(s, p, luck))
  {
    assert RecorderOk(s.recorders[p], s);
    var t := RecorderStep(s, p, luck);
    RecorderStepKeepsRest(s, p, luck);
    forall k | 0 <= k < |t.answers| ensures AnswerOk(t, t.answers[k]) {
      assert AnswerOk(s, s.answers[k]);
      if s.answers[k].doc.Some? { assert ArchiveFits(s, s.answers[k].call.incident); }
    }
  }

  // ------------------------------------------------------------- preservation: the acknowledger

  predicate Quiet(a: Acknowledger) {
    a.NoCall? || a.ReadingActive? || a.ReadingArchive? || a.Comparing?
  }

  predicate OnTemp(a: Acknowledger) {
    a.TempCreating? || a.TempWriting? || a.TempUnlinking?
  }

  lemma {:induction false} QuietChangesNothing(s: State, luck: Luck, now: nat)
    requires Quiet(s.ack)
    ensures var t := AckStep(s, luck, now);
            t.files == s.files && t.serial == s.serial && t.recorders == s.recorders
            && t.shown == s.shown && t.told == s.told
  {
  }

  /** A state whose active and archived files are the same. */
  ghost predicate SameRecords(s: State, t: State) {
    && t.shown == s.shown && t.told == s.told && s.serial <= t.serial
    && (forall d :: Active(d) in s.files <==> Active(d) in t.files)
    && (forall d :: Active(d) in s.files ==> t.files[Active(d)] == s.files[Active(d)])
    && (forall i :: Archive(i) in s.files <==> Archive(i) in t.files)
    && (forall i :: Archive(i) in s.files ==> t.files[Archive(i)] == s.files[Archive(i)])
  }

  lemma {:induction false} TempIsPrivate(s: State, luck: Luck, now: nat)
    requires OnTemp(s.ack)
    ensures SameRecords(s, AckStep(s, luck, now)) && AckStep(s, luck, now).recorders == s.recorders
  {
  }

  lemma {:induction false} SameRecordsKeep(s: State, t: State)
    requires FilesOk(s) && SameRecords(s, t)
    ensures FilesOk(t)
  {
    forall d | Active(d) in t.files ensures ActiveFits(t, d) { assert ActiveFits(s, d); }
    forall i | Archive(i) in t.files ensures ArchiveFits(t, i) { assert ArchiveFits(s, i); }
    forall i | i in t.told ensures Covered(t, i) { assert Covered(s, i); }
  }

  /** Two states whose files differ at most in one active and one archived path. */
  ghost predicate Elsewhere(s: State, t: State, dut: string, i: nat) {
    && t.shown == s.shown && t.told == s.told && s.serial <= t.serial
    && (forall d :: d != dut ==> (Active(d) in s.files <==> Active(d) in t.files))
    && (forall d :: d != dut && Active(d) in s.files ==> t.files[Active(d)] == s.files[Active(d)])
    && (forall j :: j != i ==> (Archive(j) in s.files <==> Archive(j) in t.files))
    && (forall j :: j != i && Archive(j) in s.files ==> t.files[Archive(j)] == s.files[Archive(j)])
  }

  /** What has to be looked at when the files of one DUT and one incident change. */
  lemma {:induction false} ElsewhereKeeps(s: State, t: State, dut: string, i: nat)
    requires FilesOk(s) && Elsewhere(s, t, dut, i)
    requires Active(dut) in t.files ==> ActiveFits(t, dut)
    requires Archive(i) in t.files ==> ArchiveFits(t, i)
    requires i in s.told ==> Covered(t, i)
    requires forall j :: j in s.told && j != i && s.shown[j].dut == dut && Locked(s, j) ==> Covered(t, j)
    requires forall d :: d != dut && Active(d) in s.files ==> !ActiveIs(s, d, i)
    ensures FilesOk(t)
  {
    forall d | Active(d) in t.files ensures ActiveFits(t, d) {
      if d != dut { assert ActiveFits(s, d) && !ActiveIs(s, d, i); }
    }
    forall j | Archive(j) in t.files ensures ArchiveFits(t, j) {
      if j != i { assert ArchiveFits(s, j); }
    }
    forall j | j in t.told ensures Covered(t, j) { assert Covered(s, j); }
  }

  /** An incident is the active record of its own DUT only. */
  lemma {:induction false} ActiveAtHome(s: State, doc: Doc, i: nat)
    requires FilesOk(s) && FormOf(doc, s) && doc.incident == i
    ensures forall d :: d != doc.dut && Active(d) in s.files ==> !ActiveIs(s, d, i)
  {
    forall d | d != doc.dut && Active(d) in s.files ensures !ActiveIs(s, d, i) { assert ActiveFits(s, d); }
  }

  lemma {:induction false} ReplacingKeepsFiles(s: State, luck: Luck, now: nat)
    requires Inv(s) && s.ack.Replacing?
    ensures FilesOk(AckStep(s, luck, now))
  {
    var t := AckStep(s, luck, now);
    assert ActiveFits(s, s.ack.call.dut);
    ActiveAtHome(s, s.ack.doc, s.ack.doc.incident);
    if s.ack.doc.incident in s.told { assert Covered(s, s.ack.doc.incident); }
    ElsewhereKeeps(s, t, s.ack.call.dut, s.ack.doc.incident);
  }

  /** The step creates, writes or removes the archive file of the acknowledged incident. */
  lemma {:induction false} ArchiveStepKeepsFiles(s: State, luck: Luck, now: nat)
    requires Inv(s) && (s.ack.Archiving? || s.ack.ArchiveWriting?)
    ensures FilesOk(AckStep(s, luck, now))
  {
    var t := AckStep(s, luck, now);
    if Archive(s.ack.doc.incident) in s.files && s.ack.Archiving? {
      SameRecordsKeep(s, t);
    } else {
      assert ActiveFits(s, s.ack.call.dut);
      ActiveAtHome(s, s.ack.doc, s.ack.doc.incident);
      if s.ack.doc.incident in s.told { assert Covered(s, s.ack.doc.incident); }
      ElsewhereKeeps(s, t, s.ack.call.dut, s.ack.doc.incident);
    }
  }

  lemma {:induction false} ArchiveUnlinkingKeepsFiles(s: State, luck: Luck, now: nat)
    requires Inv(s) && s.ack.ArchiveUnlinking?
    ensures FilesOk(AckStep(s, luck, now))
  {
    var t, i := AckStep(s, luck, now), s.ack.doc.incident;
    assert ArchiveFits(s, i);
    forall d | Active(d) in t.files ensures ActiveFits(t, d) { assert ActiveFits(s, d); }
    forall j | Archive(j) in t.files ensures ArchiveFits(t, j) { assert ArchiveFits(s, j); }
    forall j | j in t.told ensures Covered(t, j) {
      assert Covered(s, j);
      if j == i { assert ActiveFits(s, s.ack.call.dut); }
    }
  }

  lemma {:induction false} ReleasingKeepsFiles(s: State, luck: Luck, now: nat)
    requires Inv(s) && s.ack.Releasing?
    ensures FilesOk(AckStep(s, luck, now))
  {
    var t := AckStep(s, luck, now);
    assert ActiveFits(s, s.ack.call.dut) && ArchiveFits(s, s.ack.doc.incident);
    ActiveAtHome(s, s.ack.doc, s.ack.doc.incident);
    ElsewhereKeeps(s, t, s.ack.call.dut, s.ack.doc.incident);
  }

  lemma {:induction false} AckKeepsFiles(s: State, luck: Luck, now: nat)
    requires Inv(s)
    ensures FilesOk(AckStep(s, luck, now))
  {
    match s.ack
    case Replacing(_, _, _) => ReplacingKeepsFiles(s, luck, now);
    case Archiving(_, _) => ArchiveStepKeepsFiles(s, luck, now);
    case ArchiveWriting(_, _, _) => ArchiveStepKeepsFiles(s, luck, now);
    case ArchiveUnlinking(_, _) => ArchiveUnlinkingKeepsFiles(s, luck, now);
    case Releasing(_, _) => ReleasingKeepsFiles(s, luck, now);
    case _ =>
      if OnTemp(s.ack) { TempIsPrivate(s, luck, now); } else { QuietChangesNothing(s, luck, now); }
      SameRecordsKeep(s, AckStep(s, luck, now));
  }

  lemma {:induction false} AckLeavesTornLocks(s: State, luck: Luck, now: nat, d: string)
    requires Inv(s) && Active(d) in s.files && s.files[Active(d)].content.Torn?
    ensures var t := AckStep(s, luck, now); Active(d) in t.files && t.files[Active(d)] == s.files[Active(d)]
  {
    assert s.ack.Replacing? || s.ack.Releasing? ==> d != s.ack.call.dut;
  }

  lemma {:induction false} AckStepKeepsRest(s: State, luck: Luck, now: nat)
    ensures var t := AckStep(s, luck, now);
            t.recorders == s.recorders && t.shown == s.shown && t.told == s.told && s.serial <= t.serial
  {
  }

  lemma {:induction false} AckKeepsRecorders(s: State, luck: Luck, now: nat)
    requires Inv(s)
    ensures RecordersOk(AckStep(s, luck, now))
  {
    var t := AckStep(s, luck, now);
    AckStepKeepsRest(s, luck, now);
    forall p | 0 <= p < |t.recorders| ensures RecorderOk(t.recorders[p], t) {
      assert RecorderOk(s.recorders[p], s);
      if s.recorders[p].Writing? { AckLeavesTornLocks(s, luck, now, s.recorders[p].dut); }
    }
  }

  lemma {:induction false} ReadingKeepsAck(s: State, luck: Luck, now: nat)
    requires Inv(s) && Quiet(s.ack)
    ensures AckOk(AckStep(s, luck, now))
  {
    if s.ack.Comparing? && Archive(s.ack.doc.incident) in s.files { assert ArchiveFits(s, s.ack.doc.incident); }
  }

  lemma {:induction false} TempKeepsAck(s: State, luck: Luck, now: nat)
    requires Inv(s) && (OnTemp(s.ack) || s.ack.Replacing?)
    ensures AckOk(AckStep(s, luck, now))
  {
  }

  /** An incident whose record is active has not been answered. */
  lemma {:induction false} SettledUnanswered(s: State, call: Call, doc: Doc)
    requires Inv(s) && Settled(s, call, doc)
    ensures Unanswered(s, doc.incident)
  {
    assert ActiveFits(s, call.dut);
    forall k | 0 <= k < |s.answers| && s.answers[k].doc.Some? ensures s.answers[k].call.incident != doc.incident {
      assert AnswerOk(s, s.answers[k]) && ArchiveFits(s, s.answers[k].call.incident);
    }
  }

  lemma {:induction false} ArchivingKeepsAck(s: State, luck: Luck, now: nat)
    requires Inv(s) && !Quiet(s.ack) && !OnTemp(s.ack) && !s.ack.Replacing?
    ensures AckOk(AckStep(s, luck, now))
  {
    if s.ack.ArchiveWriting? { SettledUnanswered(s, s.ack.call, s.ack.doc); }
  }

  lemma {:induction false} AckKeepsAck(s: State, luck: Luck, now: nat)
    requires Inv(s)
    ensures AckOk(AckStep(s, luck, now))
  {
    if Quiet(s.ack) { ReadingKeepsAck(s, luck, now); }
    else if OnTemp(s.ack) || s.ack.Replacing? { TempKeepsAck(s, luck, now); }
    else { ArchivingKeepsAck(s, luck, now); }
  }

  lemma {:induction false} OldAnswerStands(s: State, luck: Luck, now: nat, k: nat)
    requires Inv(s) && k < |s.answers|
    ensures AnswerOk(AckStep(s, luck, now), s.answers[k])
  {
    var r := s.answers[k];
    assert AnswerOk(s, r);
    if r.doc.Some? {
      var i := r.call.incident;
      assert ArchiveFits(s, i) && !ActiveIs(s, r.doc.value.dut, i);
      assert s.ack.ArchiveWriting? || s.ack.ArchiveUnlinking? || s.ack.Replacing? ==> s.ack.doc.incident != i;
    }
  }

  lemma {:induction false} NewAnswerHolds(s: State, luck: Luck, now: nat)
    requires Inv(s)
    ensures var t := AckStep(s, luck, now);
            t.answers == s.answers
            || (|t.answers| == |s.answers| + 1 && t.answers[..|s.answers|] == s.answers
                && AnswerOk(t, t.answers[|s.answers|]))
  {
    if s.ack.ReadingArchive? && Archive(s.ack.call.incident) in s.files {
      assert ArchiveFits(s, s.ack.call.incident);
    }
  }

  lemma {:induction false} AckKeepsAnswers(s: State, luck: Luck, now: nat)
    requires Inv(s)
    ensures AnswersOk(AckStep(s, luck, now))
  {
    var t := AckStep(s, luck, now);
    NewAnswerHolds(s, luck, now);
    forall k | 0 <= k < |t.answers| ensures AnswerOk(t, t.answers[k]) {
      if k < |s.answers| {
        assert t.answers[..|s.answers|][k] == s.answers[k];
        OldAnswerStands(s, luck, now, k);
      }
    }
  }

  // ------------------------------------------------------------- preservation: runs

  lemma {:induction false} StepKeeps(s: State, e: Event)
    requires Inv(s) && SafeStep(s, e)
    ensures Inv(Step(s, e))
  {
    match e
    case RecorderActs(p, luck) =>
      if p < |s.recorders| {
        RecorderKeepsFiles(s, p, luck);
        RecorderKeepsRecorders(s, p, luck);
        RecorderKeepsAck(s, p, luck);
        RecorderKeepsAnswers(s, p, luck);
      }
    case AcknowledgerActs(luck, now) =>
      AckKeepsFiles(s, luck, now);
      AckKeepsRecorders(s, luck, now);
      AckKeepsAck(s, luck, now);
      AckKeepsAnswers(s, luck, now);
    case _ => CallKeeps(s, e);
  }

  lemma {:induction false} CallKeepsRecorders(s: State, e: Event)
    requires RecordersOk(s) && !e.RecorderActs? && !e.AcknowledgerActs?
    ensures RecordersOk(Step(s, e))
  {
    var t := Step(s, e);
    forall p | 0 <= p < |t.recorders| ensures RecorderOk(t.recorders[p], t) {
      if p < |s.recorders| { assert RecorderOk(s.recorders[p], s); }
    }
  }

  lemma {:induction false} CallKeeps(s: State, e: Event)
    requires Inv(s) && !e.RecorderActs? && !e.AcknowledgerActs?
    ensures Inv(Step(s, e))
  {
    var t := Step(s, e);
    assert SameRecords(s, t);
    SameRecordsKeep(s, t);
    CallKeepsRecorders(s, e);
    forall k | 0 <= k < |t.answers| ensures AnswerOk(t, t.answers[k]) { assert AnswerOk(s, s.answers[k]); }
  }

  lemma {:induction false} RunKeeps(events: seq<Event>)
    requires SafeRun(events)
    ensures Inv(Run(events))
  {
    if events != [] {
      RunKeeps(events[..|events| - 1]);
      StepKeeps(Run(events[..|events| - 1]), events[|events| - 1]);
    }
  }

  // ------------------------------------------------------------- runs without a failed fsync

  predicate Harmless(e: Event) {
    e.RecorderActs? ==> !e.luck.SyncFails?
  }

  ghost predicate AllHarmless(events: seq<Event>) {
    forall i :: 0 <= i < |events| ==> Harmless(events[i])
  }

  predicate Owns(r: Recorder) {
    r.Writing? || r.Unlinking?
  }

  /** A failure handler still finds the torn file of its own recorder. */
  ghost predicate Clean(s: State) {
    && (forall p :: 0 <= p < |s.recorders| ==> OwnsTorn(s.recorders[p], s))
    && (forall p, q :: 0 <= p < q < |s.recorders| && Owns(s.recorders[p]) && Owns(s.recorders[q]) ==>
          s.recorders[p].inode != s.recorders[q].inode)
  }

  predicate OwnsTorn(r: Recorder, s: State) {
    Owns(r) ==> Active(r.dut) in s.files && s.files[Active(r.dut)] == File(r.inode, Torn) && r.inode < s.serial
  }

  /** Then nobody needs it. */
  lemma {:induction false} CleanIsSafe(s: State, e: Event)
    requires Clean(s)
    ensures SafeStep(s, e)
  {
    if Unlinks(s, e) {
      assert OwnsTorn(s.recorders[e.p], s);
      forall q | 0 <= q < |s.recorders| ensures !WritesTo(s.recorders[q], s.recorders[e.p].dut) {
        assert OwnsTorn(s.recorders[q], s);
      }
    }
  }

  lemma {:induction false} OtherOwnerStands(s: State, p: nat, luck: Luck, q: nat)
    requires Clean(s) && p < |s.recorders| && q < |s.recorders| && p != q && !luck.SyncFails?
    ensures OwnsTorn(s.recorders[q], RecorderStep(s, p, luck))
    ensures RecorderStep(s, p, luck).recorders[q] == s.recorders[q]
  {
    assert OwnsTorn(s.recorders[p], s) && OwnsTorn(s.recorders[q], s);
    assert Owns(s.recorders[p]) && Owns(s.recorders[q]) ==> s.recorders[p].inode != s.recorders[q].inode;
  }

  lemma {:induction false} OwnOwnerAdvances(s: State, p: nat, luck: Luck)
    requires Clean(s) && p < |s.recorders| && !luck.SyncFails?
    ensures var t := RecorderStep(s, p, luck);
            var r, u := s.recorders[p], t.recorders[p];
            && |t.recorders| == |s.recorders| && OwnsTorn(u, t)
            && (Owns(u) ==> (Owns(r) && u.inode == r.inode) || u.inode == s.serial)
  {
    assert OwnsTorn(s.recorders[p], s);
  }

  lemma {:induction false} CleanStays(s: State, e: Event)
    requires Inv(s) && Clean(s) && Harmless(e)
    ensures Clean(Step(s, e))
  {
    var t := Step(s, e);
    if e.RecorderActs? && e.p < |s.recorders| {
      OwnOwnerAdvances(s, e.p, e.luck);
      forall q | 0 <= q < |s.recorders| && q != e.p
        ensures OwnsTorn(s.recorders[q], t) && OwnsTorn(s.recorders[q], s) && t.recorders[q] == s.recorders[q]
      {
        OtherOwnerStands(s, e.p, e.luck, q);
      }
    } else if e.AcknowledgerActs? {
      AckStepKeepsRest(s, e.luck, e.now);
      forall p | 0 <= p < |t.recorders| ensures OwnsTorn(t.recorders[p], t) {
        assert OwnsTorn(s.recorders[p], s);
        if Owns(s.recorders[p]) { AckLeavesTornLocks(s, e.luck, e.now, s.recorders[p].dut); }
      }
    } else {
      forall p | 0 <= p < |t.recorders| ensures OwnsTorn(t.recorders[p], t) {
        if p < |s.recorders| { assert OwnsTorn(s.recorders[p], s); }
      }
    }
  }

  /** Without a failed fsync every unlink is safe. */
  lemma {:induction false} HarmlessRunsAreSafe(events: seq<Event>)
    requires AllHarmless(events)
    ensures SafeRun(events) && Clean(Run(events))
  {
    if events != [] {
      var head := events[..|events| - 1];
      HarmlessRunsAreSafe(head);
      RunKeeps(head);
      CleanIsSafe(Run(head), events[|events| - 1]);
      CleanStays(Run(head), events[|events| - 1]);
    }
  }

  // ------------------------------------------------------------- main results

  /**
   * No uncertain outcome is lost.  Whatever recorders and the acknowledger do, and wherever they
   * crash, as long as no failure handler unlinks a file somebody needs: each incident of which a
   * recorder told its caller still has its DUT locked, or its acknowledged record is in the
   * archive; control is clear only when there is no active file at all, so a torn one never reads
   * as clear.
   */
  lemma {:induction false} NoIncidentIsLost(events: seq<Event>, i: nat)
    requires SafeRun(events) && i in Run(events).told
    ensures var s := Run(events);
            i in s.shown &&
            var w := s.shown[i];
            && (Active(w.dut) in s.files
                || exists doc :: Holds(s.files, Archive(i), doc) && doc.status.Acknowledged? && doc.(status := Open) == w)
            && (!Archived(s, i) ==> !AssertClear(s.files, w.dut))
            && (forall d: string :: AssertClear(s.files, d) <==> Active(d) !in s.files)
  {
    RunKeeps(events);
    var s := Run(events);
    assert Covered(s, i);
    if Archived(s, i) {
      assert ArchiveFits(s, i);
      assert Holds(s.files, Archive(i), s.files[Archive(i)].content.doc);
    }
  }

  function CallsOf(events: seq<Event>): set<Call> {
    set e | e in events && e.Acknowledge? :: e.call
  }

  /** An acknowledged record carries the data of a call with valid inputs that named its DUT and incident. */
  predicate Vouched(doc: Doc, calls: set<Call>) {
    doc.status.Acknowledged? ==>
      exists call :: call in calls && VouchesFor(call, doc)
  }

  predicate VouchesFor(call: Call, doc: Doc) {
    call.inputsOk && call.dut == doc.dut && call.incident == doc.incident
    && doc.status.Acknowledged? && call.data == doc.status.data
  }

  function CarriedDoc(a: Acknowledger): Option<Doc> {
    match a
    case TempCreating(_, doc) => Some(doc)
    case TempWriting(_, doc, _) => Some(doc)
    case Replacing(_, doc, _) => Some(doc)
    case Archiving(_, doc) => Some(doc)
    case ArchiveWriting(_, doc, _) => Some(doc)
    case ArchiveUnlinking(_, doc) => Some(doc)
    case Comparing(_, doc) => Some(doc)
    case Releasing(_, doc) => Some(doc)
    case _ => None
  }

  ghost predicate FilesVouched(files: Files, calls: set<Call>) {
    forall path :: path in files && files[path].content.Text? ==> Vouched(files[path].content.doc, calls)
  }

  ghost predicate AllVouched(s: State, calls: set<Call>) {
    && FilesVouched(s.files, calls)
    && (!s.ack.NoCall? ==> s.ack.call in calls)
    && (CarriedDoc(s.ack).Some? ==> Vouched(CarriedDoc(s.ack).value, calls))
    && (forall p :: 0 <= p < |s.recorders| && Drafts(s.recorders[p]) ==> s.recorders[p].doc.status.Open?)
  }

  lemma {:induction false} MoreCallsVouch(s: State, calls: set<Call>, more: set<Call>)
    requires AllVouched(s, calls) && calls <= more
    ensures AllVouched(s, more)
  {
    forall path | path in s.files && s.files[path].content.Text? ensures Vouched(s.files[path].content.doc, more) {
      assert Vouched(s.files[path].content.doc, calls);
    }
  }

  lemma {:induction false} RecorderStepVouches(s: State, p: nat, luck: Luck, calls: set<Call>)
    requires AllVouched(s, calls) && p < |s.recorders|
    ensures AllVouched(RecorderStep(s, p, luck), calls)
  {
    RecorderStepKeepsRest(s, p, luck);
  }

  lemma {:induction false} AckStepVouches(s: State, luck: Luck, now: nat, calls: set<Call>)
    requires AllVouched(s, calls)
    ensures AllVouched(AckStep(s, luck, now), calls)
  {
    if s.ack.ReadingActive? && ReadDocument(s.files, Active(s.ack.call.dut)).Present? {
      var doc := s.files[Active(s.ack.call.dut)].content.doc;
      assert Vouched(doc, calls);
      if doc.status.Open? && doc.dut == s.ack.call.dut && doc.incident == s.ack.call.incident && s.ack.call.inputsOk {
        assert VouchesFor(s.ack.call, doc.(status := Acknowledged(s.ack.call.data, now)));
      }
    }
  }

  lemma {:induction false} RunVouches(events: seq<Event>)
    ensures AllVouched(Run(events), CallsOf(events))
  {
    if events != [] {
      var head, e := events[..|events| - 1], events[|events| - 1];
      assert events == head + [e];
      RunVouches(head);
      MoreCallsVouch(Run(head), CallsOf(head), CallsOf(events));
      match e
      case RecorderActs(p, luck) =>
        if p < |Run(head).recorders| { RecorderStepVouches(Run(head), p, luck, CallsOf(events)); }
      case AcknowledgerActs(luck, now) => AckStepVouches(Run(head), luck, now, CallsOf(events));
      case Acknowledge(call) => assert call in CallsOf(events);
      case _ =>
    }
  }

  /**
   * No lock goes without an operator: a reported incident that no longer locks its DUT was named by
   * a call with valid inputs for that DUT, and the archive holds its record with the data of that call.
   */
  lemma {:induction false} ReleaseNeedsCall(events: seq<Event>, i: nat)
    requires SafeRun(events) && i in Run(events).told && i in Run(events).shown && !Locked(Run(events), i)
    ensures var s := Run(events);
            exists call: Call, at: nat :: Acknowledge(call) in events && call.inputsOk
              && call.dut == s.shown[i].dut && call.incident == i
              && Holds(s.files, Archive(i), s.shown[i].(status := Acknowledged(call.data, at)))
  {
    RunKeeps(events);
    RunVouches(events);
    var s := Run(events);
    assert Covered(s, i) && ArchiveFits(s, i);
    var doc := s.files[Archive(i)].content.doc;
    assert Vouched(doc, CallsOf(events));
    var call :| call in CallsOf(events) && VouchesFor(call, doc);
    assert doc == s.shown[i].(status := Acknowledged(call.data, doc.status.at));
  }

  /** Every record a recorder returns is told if it is open, and is a form of one that was completed. */
  lemma {:induction false} ReturnsAreTold(events: seq<Event>, p: nat)
    requires SafeRun(events) && p < |Run(events).recorders|
    requires Run(events).recorders[p].Recorded? || Run(events).recorders[p].Coalesced?
    ensures var s := Run(events);
            var doc := s.recorders[p].doc;
            && FormOf(doc, s) && (s.recorders[p].Recorded? ==> doc.status.Open?)
            && (doc.status.Open? ==> doc.incident in s.told)
  {
    RunKeeps(events);
    assert RecorderOk(Run(events).recorders[p], Run(events));
  }

  /**
   * All calls that return for one incident return the same document, across crashes and retries:
   * the acknowledged form of what was written.
   */
  lemma {:induction false} AnswersAgree(events: seq<Event>, j: nat, k: nat)
    requires SafeRun(events)
    requires j < |Run(events).answers| && k < |Run(events).answers|
    requires Run(events).answers[j].doc.Some? && Run(events).answers[k].doc.Some?
    requires Run(events).answers[j].call.incident == Run(events).answers[k].call.incident
    ensures var s := Run(events);
            && s.answers[j].doc == s.answers[k].doc
            && s.answers[j].doc.value.status.Acknowledged? && FormOf(s.answers[j].doc.value, s)
  {
    RunKeeps(events);
    var s := Run(events);
    assert AnswerOk(s, s.answers[j]) && AnswerOk(s, s.answers[k]);
    assert ArchiveFits(s, s.answers[j].call.incident);
  }

  // ------------------------------------------------------------- retries

  function RunFrom(s: State, events: seq<Event>): State
    decreases |events|
  {
    if events == [] then s else RunFrom(Step(s, events[0]), events[1..])
  }

  function AckActs(events: seq<Event>): nat {
    if events == [] then 0 else (if events[0].AcknowledgerActs? then 1 else 0) + AckActs(events[1..])
  }

  /** Recorders act freely; the acknowledger's operations work and it does not crash. */
  predicate Undisturbed(e: Event) {
    Harmless(e) && !e.Acknowledge? && !e.AcknowledgerCrashes? && (e.AcknowledgerActs? ==> e.luck.Works?)
  }

  function StepsLeft(a: Acknowledger): nat {
    match a
    case ReadingActive(_) => 4
    case Archiving(_, _) => 3
    case ArchiveWriting(_, _, _) => 2
    case Comparing(_, _) => 2
    case Releasing(_, _) => 1
    case _ => 0
  }

  /** A retry of `call` on its way: the active record stays `doc` until the archive holds it. */
  ghost predicate Retrying(s: State, call: Call, doc: Doc, torn: bool) {
    && Inv(s) && Clean(s) && call.inputsOk && Settled(s, call, doc)
    && (s.ack == ReadingActive(call) || s.ack == Archiving(call, doc) || s.ack == Comparing(call, doc)
        || (!torn && s.ack == Releasing(call, doc))
        || (!torn && s.ack.ArchiveWriting? && s.ack == ArchiveWriting(call, doc, s.ack.inode)))
    && (torn ==> Archive(doc.incident) in s.files && s.files[Archive(doc.incident)].content.Torn?)
    && (!torn && !s.ack.ArchiveWriting? ==>
          Archive(doc.incident) in s.files ==> s.files[Archive(doc.incident)].content.Text?)
    && (s.ack.Comparing? ==> Archive(doc.incident) in s.files)
  }

  /** The retry has ended: with `doc`, or, if the archive file was torn, with an error and the lock in place. */
  predicate Retried(s: State, call: Call, doc: Doc, torn: bool, before: seq<Reply>) {
    && s.ack.NoCall?
    && s.answers == before + [Reply(call, if torn then None else Some(doc))]
    && (if torn then Settled(s, call, doc) else Holds(s.files, Archive(doc.incident), doc))
  }

  lemma {:induction false} CleanStepKeeps(s: State, e: Event)
    requires Inv(s) && Clean(s) && Harmless(e)
    ensures Inv(Step(s, e)) && Clean(Step(s, e))
  {
    CleanIsSafe(s, e);
    StepKeeps(s, e);
    CleanStays(s, e);
  }

  /** Without a failed fsync recorders leave every complete text where it is. */
  lemma {:induction false} TextStays(s: State, p: nat, luck: Luck, path: Path)
    requires Inv(s) && Clean(s) && p < |s.recorders| && path in s.files && s.files[path].content.Text?
    ensures var t := RecorderStep(s, p, luck); path in t.files && t.files[path] == s.files[path]
  {
    assert OwnsTorn(s.recorders[p], s);
    TextStaysActive(s, p, luck, path);
  }

  lemma {:induction false} RetryAdvances(s: State, e: Event, call: Call, doc: Doc, torn: bool)
    requires Retrying(s, call, doc, torn) && e.AcknowledgerActs? && Undisturbed(e)
    ensures var t := Step(s, e);
            || Retried(t, call, doc, torn, s.answers)
            || (Retrying(t, call, doc, torn) && t.answers == s.answers && StepsLeft(t.ack) < StepsLeft(s.ack))
  {
    CleanStepKeeps(s, e);
    assert ActiveFits(s, call.dut);
  }

  lemma {:induction false} RecordersDoNotDisturb(s: State, e: Event, call: Call, doc: Doc, torn: bool)
    requires Retrying(s, call, doc, torn) && !e.AcknowledgerActs? && Undisturbed(e)
    ensures Retrying(Step(s, e), call, doc, torn) && Step(s, e).answers == s.answers && Step(s, e).ack == s.ack
  {
    CleanStepKeeps(s, e);
    if e.RecorderActs? && e.p < |s.recorders| {
      TextStays(s, e.p, e.luck, Active(call.dut));
      NoNewArchive(s, e.p, e.luck, doc.incident);
      RecorderStepKeepsRest(s, e.p, e.luck);
    }
  }

  lemma {:induction false} RetriedStands(s: State, e: Event, call: Call, doc: Doc, torn: bool, before: seq<Reply>)
    requires Inv(s) && Clean(s) && Retried(s, call, doc, torn, before) && Undisturbed(e)
    ensures Inv(Step(s, e)) && Clean(Step(s, e)) && Retried(Step(s, e), call, doc, torn, before)
  {
    CleanStepKeeps(s, e);
    if e.RecorderActs? && e.p < |s.recorders| {
      RecorderStepKeepsRest(s, e.p, e.luck);
      if torn { TextStays(s, e.p, e.luck, Active(call.dut)); }
      else { TextStays(s, e.p, e.luck, Archive(doc.incident)); }
    }
  }

  /**
   * Once the acknowledged document is the active record, a retry with the same data returns that
   * same document after at most four operations, whatever recorders do meanwhile; only if the
   * archive file was left torn does it raise instead, and then the lock stays.
   */
  lemma {:induction false} RetryReturnsSameDocument(s: State, events: seq<Event>, call: Call, doc: Doc, torn: bool)
    requires Retrying(s, call, doc, torn)
    requires forall i :: 0 <= i < |events| ==> Undisturbed(events[i])
    ensures var t := RunFrom(s, events);
            || Retried(t, call, doc, torn, s.answers)
            || (Retrying(t, call, doc, torn) && AckActs(events) < StepsLeft(s.ack))
    decreases |events|
  {
    if events != [] {
      var t := Step(s, events[0]);
      if events[0].AcknowledgerActs? {
        RetryAdvances(s, events[0], call, doc, torn);
        CleanStepKeeps(s, events[0]);
        if Retried(t, call, doc, torn, s.answers) {
          RetriedForGood(t, events[1..], call, doc, torn, s.answers);
        } else {
          RetryReturnsSameDocument(t, events[1..], call, doc, torn);
        }
      } else {
        RecordersDoNotDisturb(s, events[0], call, doc, torn);
        RetryReturnsSameDocument(t, events[1..], call, doc, torn);
      }
    }
  }

  lemma {:induction false} RetriedForGood(s: State, events: seq<Event>, call: Call, doc: Doc, torn: bool, before: seq<Reply>)
    requires Inv(s) && Clean(s) && Retried(s, call, doc, torn, before)
    requires forall i :: 0 <= i < |events| ==> Undisturbed(events[i])
    ensures Retried(RunFrom(s, events), call, doc, torn, before)
    decreases |events|
  {
    if events != [] {
      RetriedStands(s, events[0], call, doc, torn, before);
      RetriedForGood(Step(s, events[0]), events[1..], call, doc, torn, before);
    }
  }

  /** In every state reached without a failed fsync such a retry starts on its way. */
  lemma {:induction false} RetryStarts(events: seq<Event>, call: Call, doc: Doc)
    requires AllHarmless(events) && Run(events).ack.NoCall? && call.inputsOk && Settled(Run(events), call, doc)
    ensures var s := Run(events);
            var torn := Archive(call.incident) in s.files && s.files[Archive(call.incident)].content.Torn?;
            Retrying(Step(s, Acknowledge(call)), call, doc, torn)
  {
    HarmlessRunsAreSafe(events);
    RunKeeps(events);
    CleanStepKeeps(Run(events), Acknowledge(call));
  }

  /** A call repeated after its lock was released returns what is archived, and changes nothing. */
  lemma {:induction false} ReleasedIsReturned(s: State, call: Call, luck: Luck, now: nat)
    requires s.ack.NoCall? && Active(call.dut) !in s.files
    ensures var t := Step(Step(Step(s, Acknowledge(call)), AcknowledgerActs(luck, now)), AcknowledgerActs(luck, now));
            var archived := ReadDocument(s.files, Archive(call.incident));
            && t.ack.NoCall? && t.files == s.files
            && t.answers == s.answers + [Reply(call, if archived.Present? && archived.doc.dut == call.dut
                                                     then Some(archived.doc) else None)]
  {
    assert Step(Step(s, Acknowledge(call)), AcknowledgerActs(luck, now)).ack == ReadingArchive(call);
  }

  /** A call that raises leaves every lock in place. */
  lemma {:induction false} RaisingKeepsLocks(s: State, luck: Luck, now: nat, d: string)
    requires !s.ack.NoCall? && AckStep(s, luck, now).answers == s.answers + [Reply(s.ack.call, None)]
    ensures var t := AckStep(s, luck, now);
            && t.ack.NoCall? && (Active(d) in t.files <==> Active(d) in s.files)
            && (Active(d) in s.files ==> t.files[Active(d)] == s.files[Active(d)])
  {
    var more := s.answers + [Reply(s.ack.call, None)];
    assert more[|s.answers|] == Reply(s.ack.call, None);
  }

  /**
   * A recorder that finds a record returns it, before or after it lost the race to create one; an
   * unreadable one makes it raise; a losing create looks again.
   */
  lemma {:induction false} FoundIsReturned(s: State, p: nat, luck: Luck)
    requires p < |s.recorders|
    ensures var r, u := s.recorders[p], RecorderStep(s, p, luck).recorders[p];
            && (r.Reading? || r.Rereading? ==>
                  && (forall doc :: GetActive(s.files, r.dut) == Present(doc) ==> u == Coalesced(doc))
                  && (GetActive(s.files, r.dut).Unreadable? ==> u == RecordFailed))
            && (r.Creating? && Active(r.dut) in s.files ==>
                  u == Rereading(r.dut) && RecorderStep(s, p, luck).files == s.files)
  {
  }

  // ------------------------------------------------------------- what a returned record is worth

  /** An acknowledgment of the incident takes effect. */
  predicate Acknowledges(s: State, e: Event, i: nat) {
    e.AcknowledgerActs? && e.luck.Works? && s.ack.Replacing? && s.ack.doc.incident == i
  }

  /** Safe steps among which no acknowledgment of the incident takes effect. */
  predicate Unacknowledged(s: State, events: seq<Event>, i: nat)
    decreases |events|
  {
    events == []
    || (SafeStep(s, events[0]) && !Acknowledges(s, events[0], i) && Unacknowledged(Step(s, events[0]), events[1..], i))
  }

  predicate HoldsOpen(s: State, doc: Doc) {
    doc.status.Open? && doc.incident in s.told && Holds(s.files, Active(doc.dut), doc)
  }

  lemma {:induction false} OpenLockSteps(s: State, e: Event, doc: Doc)
    requires Inv(s) && SafeStep(s, e) && HoldsOpen(s, doc) && !Acknowledges(s, e, doc.incident)
    ensures Inv(Step(s, e)) && HoldsOpen(Step(s, e), doc)
  {
    StepKeeps(s, e);
    assert ActiveFits(s, doc.dut);
    if e.RecorderActs? && e.p < |s.recorders| {
      assert RecorderOk(s.recorders[e.p], s);
      TextStaysActive(s, e.p, e.luck, Active(doc.dut));
      HistoryGrows(s, e.p, e.luck);
    } else if e.AcknowledgerActs? {
      AckStepKeepsRest(s, e.luck, e.now);
    }
  }

  /**
   * A caller that was given an open record, its own or another's, is covered by it: control stays
   * blocked by that very record until an acknowledgment takes effect that was judged after it.
   */
  lemma {:induction false} OpenRecordCovers(s: State, events: seq<Event>, doc: Doc)
    requires Inv(s) && HoldsOpen(s, doc) && Unacknowledged(s, events, doc.incident)
    ensures var t := RunFrom(s, events); Inv(t) && HoldsOpen(t, doc) && !AssertClear(t.files, doc.dut)
    decreases |events|
  {
    if events == [] {
      assert ActiveFits(s, doc.dut);
    } else {
      OpenLockSteps(s, events[0], doc);
      OpenRecordCovers(Step(s, events[0]), events[1..], doc);
    }
  }

  /** At the moment a recorder returns an open record, that record holds the lock. */
  lemma {:induction false} ReturnFindsLock(s: State, p: nat, luck: Luck)
    requires Inv(s) && p < |s.recorders| && !s.recorders[p].Recorded? && !s.recorders[p].Coalesced?
    ensures var t := RecorderStep(s, p, luck);
            var r := t.recorders[p];
            (r.Recorded? || r.Coalesced?) && r.doc.status.Open? ==> HoldsOpen(t, r.doc)
  {
    var r := s.recorders[p];
    assert RecorderOk(r, s);
    if (r.Reading? || r.Rereading?) && Active(r.dut) in s.files { assert ActiveFits(s, r.dut); }
  }

  /**
   * A record that is acknowledged already covers nothing: while the acknowledger is about to
   * release the lock, a new outcome is answered with the old record, and one operation later
   * control is clear, without any acknowledgment in between.
   */
  lemma {:induction false} AcknowledgedRecordCoversNothing(s: State, body: Body) returns (events: seq<Event>)
    requires Inv(s) && s.ack.Releasing?
    ensures var t := RunFrom(s, events);
            && Unacknowledged(s, events, s.ack.doc.incident)
            && t.recorders == s.recorders + [Coalesced(s.ack.doc)] && s.ack.doc.status.Acknowledged?
            && AssertClear(t.files, s.ack.doc.dut)
  {
    var d, doc, n := s.ack.doc.dut, s.ack.doc, |s.recorders|;
    var e0, e1, e2 := Record(d, body), RecorderActs(n, Works), AcknowledgerActs(Works, 0);
    var s1 := Step(s, e0);
    var s2 := Step(s1, e1);
    assert s1.recorders == s.recorders + [Reading(d, body)];
    assert s2 == s1.(recorders := s.recorders + [Coalesced(doc)]);
    events := [e0, e1, e2];
    assert events[1..] == [e1, e2] && [e1, e2][1..] == [e2] && [e2][1..] == [];
    assert RunFrom(s2, [e2]) == RunFrom(Step(s2, e2), []) == Step(s2, e2);
    assert RunFrom(s1, [e1, e2]) == RunFrom(s2, [e2]);
    assert Unacknowledged(s2, [e2], doc.incident) && Unacknowledged(s1, [e1, e2], doc.incident);
  }
}
