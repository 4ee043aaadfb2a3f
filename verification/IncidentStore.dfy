// The incident store of one process, working alone on its directory.

module IncidentStore {
  import opened Common
  import opened Incidents

  datatype WriteResult = Written | AlreadyExists | WriteFailed

  datatype RecordResult = LockRecord(doc: Doc, created: bool) | LockError

  /** What is left of a file whose write or fsync failed, if its removal fails too. */
  function LeftOver(inode: nat, doc: Doc, luck: Luck): File {
    File(inode, if luck.Fails? then Torn else Text(doc))
  }

  /** The lock a recorder leaves, and what it reports, when nobody interferes. */
  function Lock(files: Files, inode: nat, dut: string, body: Body, incident: nat, luck: Luck, cleaned: bool)
    : (Files, RecordResult)
  {
    match GetActive(files, dut)
    case Present(doc) => (files, LockRecord(doc, false))
    case Unreadable => (files, LockError)
    case Absent =>
      var doc := Doc(incident, dut, Open, body);
      if !ValidBody(body) then (files, LockError)
      else if luck.Works? then (files[Active(dut) := File(inode, Text(doc))], LockRecord(doc, true))
      else (if cleaned then files else files[Active(dut) := LeftOver(inode, doc, luck)], LockError)
  }

  class SafetyIncidentStore {
    var files: Files
    var serial: nat

    /** Temporary names are never reused. */
    ghost predicate Valid()
      reads this
    {
      forall n :: serial <= n ==> Temp(n) !in files
    }

    constructor (existing: Files, start: nat)
      requires forall n :: start <= n ==> Temp(n) !in existing
      ensures Valid() && files == existing && serial == start
    {
      files, serial := existing, start;
    }

    /**
     * `_write_exclusive`: create, write, sync; a failure removes the file again, and an error of
     * that removal is ignored (`cleaned`: it works).
     */
    method WriteExclusive(path: Path, doc: Doc, inode: nat, luck: Luck, cleaned: bool) returns (r: WriteResult)
      requires Valid() && (path.Temp? ==> path.n < serial)
      modifies `files
      ensures Valid()
      ensures r == if path in old(files) then AlreadyExists else if luck.Works? then Written else WriteFailed
      ensures files ==
        if r.Written? then old(files)[path := File(inode, Text(doc))]
        else if r.WriteFailed? && !cleaned then old(files)[path := LeftOver(inode, doc, luck)]
        else old(files)
    {
      if path in files {
        return AlreadyExists;
      }
      files := files[path := File(inode, Torn)];
      if !luck.Fails? {
        files := WriteTo(files, path, inode, Text(doc));
      }
      if luck.Works? {
        return Written;
      }
      if cleaned {
        files := files - {path};
      }
      r := WriteFailed;
    }

    /**
     * `_replace_document`: write a private file, then rename it over the record.  The private file
     * is removed in any case; an error of that removal is ignored.
     */
    method ReplaceDocument(path: Path, doc: Doc, writing: Luck, renaming: Luck, cleaned: bool) returns (ok: bool)
      requires Valid() && !path.Temp?
      modifies this
      ensures Valid()
      ensures ok <==> writing.Works? && renaming.Works?
      ensures ok ==> path in files && files == old(files)[path := files[path]] && Holds(files, path, doc)
      ensures !ok ==> files - {Temp(old(serial))} == old(files)
      ensures !ok && cleaned ==> files == old(files)
    {
      var temporary := Temp(serial);
      serial := serial + 1;
      var r := WriteExclusive(temporary, doc, serial, writing, cleaned);
      ok := false;
      if r.Written? {
        if renaming.Works? {
          files := files[path := files[temporary]] - {temporary};
          ok := true;
        } else if cleaned {
          files := files - {temporary};
        }
      }
    }

    /** `record_uncertain`: a readable lock is reported as it is, an unreadable one raises. */
    method RecordUncertain(dut: string, body: Body, incident: nat, inode: nat, luck: Luck, cleaned: bool)
      returns (r: RecordResult)
      requires Valid()
      modifies `files
      ensures Valid()
      ensures (files, r) == Lock(old(files), inode, dut, body, incident, luck, cleaned)
      ensures r.LockRecord? ==> !AssertClear(files, dut)
      ensures !AssertClear(old(files), dut) ==> files == old(files)
      ensures forall doc :: GetActive(old(files), dut) == Present(doc) ==> r == LockRecord(doc, false)
      ensures GetActive(old(files), dut).Unreadable? || (AssertClear(old(files), dut) && !ValidBody(body)) ==>
        files == old(files) && r.LockError?
      ensures AssertClear(old(files), dut) && ValidBody(body) ==>
        if luck.Works?
        then r == LockRecord(Doc(incident, dut, Open, body), true)
             && files == old(files)[Active(dut) := File(inode, Text(Doc(incident, dut, Open, body)))]
        else r.LockError? && (cleaned ==> files == old(files))
    {
      var existing := GetActive(files, dut);
      if existing.Present? {
        return LockRecord(existing.doc, false);
      }
      if existing.Unreadable? || !ValidBody(body) {
        return LockError;
      }
      var doc := Doc(incident, dut, Open, body);
      var written := WriteExclusive(Active(dut), doc, inode, luck, cleaned);
      r := if written.Written? then LockRecord(doc, true) else LockError;
    }

    /**
     * `acknowledge`.  A call that raises never removes a lock.  A call that returns has archived
     * what it returns, and no lock is left.  It acts only on the active record of its own DUT and
     * incident, with valid inputs, and on an acknowledged one only with the data it carries; any
     * other record stays as it is.  When every operation works, it returns exactly if the archive
     * does not disagree.
     */
    method Acknowledge(call: Call, now: nat, writing: Luck, renaming: Luck, archiving: Luck, unlinking: Luck,
                       cleaned: bool)
      returns (answer: Option<Doc>)
      requires Valid()
      modifies this
      ensures Valid()
      ensures forall d: string :: d != call.dut ==>
        (Active(d) in files <==> Active(d) in old(files))
        && (Active(d) in files ==> files[Active(d)] == old(files)[Active(d)])
      ensures forall i: nat :: i != call.incident ==>
        (Archive(i) in files <==> Archive(i) in old(files))
        && (Archive(i) in files ==> files[Archive(i)] == old(files)[Archive(i)])
      ensures answer.None? && Active(call.dut) in old(files) ==> Active(call.dut) in files
      ensures answer.Some? ==>
        && Active(call.dut) !in files && answer.value.dut == call.dut
        && Holds(files, Archive(call.incident), answer.value)
      ensures var active := ReadDocument(old(files), Active(call.dut));
        active.Absent? ==>
          var archived := ReadDocument(old(files), Archive(call.incident));
          && files == old(files)
          && answer == if archived.Present? && archived.doc.dut == call.dut then Some(archived.doc) else None
      ensures var active := ReadDocument(old(files), Active(call.dut));
        active.Unreadable? ==> files == old(files) && answer.None?
      ensures var active := ReadDocument(old(files), Active(call.dut));
        active.Present? && (active.doc.dut != call.dut || active.doc.incident != call.incident || !call.inputsOk) ==>
          files == old(files) && answer.None?
      ensures var active := ReadDocument(old(files), Active(call.dut));
        active.Present? && active.doc.status.Acknowledged? && active.doc.status.data != call.data ==>
          files == old(files) && answer.None?
      ensures var active := ReadDocument(old(files), Active(call.dut));
        active.Present? && answer.Some? ==>
          answer.value == if active.doc.status.Open? then active.doc.(status := Acknowledged(call.data, now)) else active.doc
      ensures var active := ReadDocument(old(files), Active(call.dut));
        && active.Present? && active.doc.dut == call.dut && active.doc.incident == call.incident && call.inputsOk
        && (active.doc.status.Open? || active.doc.status.data == call.data)
        && writing.Works? && renaming.Works? && archiving.Works? && unlinking.Works?
        ==> (answer.None? <==>
               Archive(call.incident) in old(files)
               && !Holds(old(files), Archive(call.incident),
                         if active.doc.status.Open? then active.doc.(status := Acknowledged(call.data, now))
                         else active.doc))
    {
      var active := ReadDocument(files, Active(call.dut));
      if active.Absent? {
        var archived := ReadDocument(files, Archive(call.incident));
        if archived.Present? && archived.doc.dut == call.dut {
          return Some(archived.doc);
        }
        return None;
      }
      if active.Unreadable? || active.doc.dut != call.dut || active.doc.incident != call.incident || !call.inputsOk {
        return None;
      }
      var acknowledged := active.doc;
      if acknowledged.status.Acknowledged? && acknowledged.status.data != call.data {
        return None;
      }
      if active.doc.status.Open? {
        acknowledged := active.doc.(status := Acknowledged(call.data, now));
        var replaced := ReplaceDocument(Active(call.dut), acknowledged, writing, renaming, cleaned);
        if !replaced {
          return None;
        }
      }
      var r := WriteExclusive(Archive(call.incident), acknowledged, serial, archiving, cleaned);
      if r.WriteFailed? {
        return None;
      }
      if r.AlreadyExists? && ReadDocument(files, Archive(call.incident)) != Present(acknowledged) {
        return None;
      }
      if !unlinking.Works? {
        return None;
      }
      files := files - {Active(call.dut)};
      answer := Some(acknowledged);
    }
  }
}
