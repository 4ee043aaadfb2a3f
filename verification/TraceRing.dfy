// The protocol trace: a circular buffer that refines a queue dropping its oldest record.

module TraceRing {
  import opened Common
  import opened Utf8

  datatype Entry = Entry(
    sequence: nat, session: nat, monotonicNs: nat, level: string,
    logger: seq<Byte>, message: seq<Byte>, truncated: bool)

  /** A log callback; `None` is a null string. */
  datatype Line = Line(
    session: nat, monotonicNs: nat, level: string, logger: Option<seq<Byte>>, message: Option<seq<Byte>>)

  datatype Batch = Batch(records: seq<Entry>, dropped: nat)

  /**
   * The queue a trace stands for.  No step reads `recorded` (every record made), `batches`
   * (every batch handed out, with the drop counter sent along) or `refused` (lines that came
   * after the last sequence number).
   */
  datatype Trace = Trace(
    id: nat, active: bool, capacity: nat, queue: seq<Entry>, dropped: nat, truncated: nat, sequence: nat,
    recorded: seq<Entry>, batches: seq<Batch>, refused: nat)

  const NO_TRACE := Trace(0, false, 0, [], 0, 0, 0, [], [], 0)

  function CopyText(text: Option<seq<Byte>>, maximum: nat): Copy {
    match text
    case None => Copy([], true)
    case Some(bytes) => CopyOf(bytes, maximum)
  }

  function EntryOf(sequence: nat, line: Line): Entry {
    var logger, message := CopyText(line.logger, 128), CopyText(line.message, 1024);
    Entry(sequence, line.session, line.monotonicNs, line.level, logger.bytes, message.bytes,
          logger.changed || message.changed)
  }

  function Bump(v: nat): nat {
    if v >= MAX64 then v else v + 1
  }

  predicate MayStart(t: Trace, capacity: nat) {
    1 <= capacity <= 65536 && !t.active && t.queue == [] && t.id != MAX64
  }

  function Start(t: Trace, capacity: nat): Trace {
    if MayStart(t, capacity) then Trace(t.id + 1, true, capacity, [], 0, 0, 0, [], [], 0) else t
  }

  function Log(t: Trace, line: Line): Trace {
    if !t.active || line.session == 0 then t
    else if t.sequence >= MAX64 then t.(dropped := MAX64, refused := t.refused + 1)
    else
      var e := EntryOf(t.sequence + 1, line);
      var full := t.queue != [] && |t.queue| == t.capacity;
      t.(queue := (if full then t.queue[1..] else t.queue) + [e],
         dropped := if full then Bump(t.dropped) else t.dropped,
         truncated := if e.truncated then Bump(t.truncated) else t.truncated,
         sequence := t.sequence + 1, recorded := t.recorded + [e])
  }

  predicate ReadBounds(maxRecords: nat, timeoutMs: nat) {
    1 <= maxRecords <= 1024 && timeoutMs <= 60000
  }

  function Taken(t: Trace, maxRecords: nat): nat {
    if |t.queue| <= maxRecords then |t.queue| else maxRecords
  }

  function Take(t: Trace, maxRecords: nat): Trace {
    var n := Taken(t, maxRecords);
    t.(queue := t.queue[n..], batches := t.batches + [Batch(t.queue[..n], t.dropped)])
  }

  predicate Names(t: Trace, id: nat) {
    t.id != 0 && t.id == id
  }

  datatype Event =
    | StartCall(capacity: nat)
    | ReadReturn(id: nat, maxRecords: nat, timeoutMs: nat)
    | StopCall(id: nat)
    | Shutdown
    | LineLogged(line: Line)

  function Step(t: Trace, e: Event): Trace {
    match e
    case StartCall(capacity) => Start(t, capacity)
    case ReadReturn(id, maxRecords, timeoutMs) =>
      if ReadBounds(maxRecords, timeoutMs) && Names(t, id) then Take(t, maxRecords) else t
    case StopCall(id) => if Names(t, id) then t.(active := false) else t
    case Shutdown => t.(active := false)
    case LineLogged(line) => Log(t, line)
  }

  function RunFrom(t: Trace, events: seq<Event>): Trace {
    if events == [] then t else Step(RunFrom(t, events[..|events| - 1]), events[|events| - 1])
  }

  // -------------------------------------------------------------- balance

  function Delivered(batches: seq<Batch>): nat {
    if batches == [] then 0 else Delivered(batches[..|batches| - 1]) + |batches[|batches| - 1].records|
  }

  /** The queue is the end of everything recorded, and records are numbered from 1. */
  ghost predicate Numbered(t: Trace) {
    && t.sequence <= MAX64 && |t.recorded| == t.sequence && |t.queue| <= t.sequence
    && (forall k :: 0 <= k < t.sequence ==> t.recorded[k].sequence == k + 1)
    && t.queue == t.recorded[t.sequence - |t.queue|..]
  }

  ghost predicate Bounded(t: Trace) {
    && |t.queue| <= t.capacity <= 65536 && (t.active ==> t.capacity >= 1)
    && (t.sequence > 0 ==> Delivered(t.batches) + |t.queue| > 0)
    && t.id <= MAX64
  }

  ghost predicate Balanced(t: Trace) {
    if t.refused == 0 then Delivered(t.batches) + t.dropped + |t.queue| == t.sequence
    else t.dropped == MAX64 && t.sequence == MAX64
  }

  /** The records of a batch follow everything delivered and dropped before them. */
  ghost predicate BatchPlaced(t: Trace, i: nat)
    requires i < |t.batches|
  {
    var first, b := Delivered(t.batches[..i]) + t.batches[i].dropped, t.batches[i].records;
    first + |b| <= |t.recorded| && b == t.recorded[first..first + |b|]
  }

  ghost predicate Inv(t: Trace) {
    && Numbered(t) && Bounded(t) && Balanced(t)
    && (t.refused == 0 ==> forall i :: 0 <= i < |t.batches| ==> BatchPlaced(t, i))
  }

  lemma {:induction false} LogKeeps(t: Trace, line: Line)
    requires Inv(t)
    ensures Inv(Log(t, line))
  {
    var u := Log(t, line);
    if u != t && t.sequence < MAX64 {
      forall i | 0 <= i < |t.batches| && u.refused == 0 ensures BatchPlaced(u, i) {
        assert BatchPlaced(t, i);
      }
    }
  }

  lemma {:induction false} TakeKeeps(t: Trace, maxRecords: nat)
    requires Inv(t)
    ensures Inv(Take(t, maxRecords))
  {
    var u, n := Take(t, maxRecords), |t.batches|;
    assert u.batches[..n] == t.batches;
    if u.refused == 0 {
      NewBatchPlaced(t, maxRecords);
      forall i | 0 <= i <= n ensures BatchPlaced(u, i) {
        if i < n {
          assert BatchPlaced(t, i) && u.batches[..i] == t.batches[..i];
        }
      }
    }
  }

  lemma {:induction false} NewBatchPlaced(t: Trace, maxRecords: nat)
    requires Numbered(t) && Balanced(t) && t.refused == 0
    ensures BatchPlaced(Take(t, maxRecords), |t.batches|)
  {
    var u, n := Take(t, maxRecords), Taken(t, maxRecords);
    assert u.batches[..|t.batches|] == t.batches;
    var first := t.sequence - |t.queue|;
    assert t.recorded[first..][..n] == t.recorded[first..first + n];
  }

  lemma {:induction false} StartKeeps(t: Trace, capacity: nat)
    requires Inv(t)
    ensures Inv(Start(t, capacity))
  {
  }

  lemma {:induction false} StopKeeps(t: Trace)
    requires Inv(t)
    ensures Inv(t.(active := false))
  {
    var u := t.(active := false);
    forall i | 0 <= i < |t.batches| && t.refused == 0 ensures BatchPlaced(u, i) { assert BatchPlaced(t, i); }
  }

  lemma {:induction false} StepKeeps(t: Trace, e: Event)
    requires Inv(t)
    ensures Inv(Step(t, e))
  {
    match e
    case ReadReturn(id, maxRecords, timeoutMs) => TakeKeeps(t, maxRecords);
    case LineLogged(line) => LogKeeps(t, line);
    case StartCall(capacity) => StartKeeps(t, capacity);
    case _ => StopKeeps(t);
  }

  lemma {:induction false} RunKeeps(events: seq<Event>)
    ensures Inv(RunFrom(NO_TRACE, events))
  {
    if events != [] {
      RunKeeps(events[..|events| - 1]);
      StepKeeps(RunFrom(NO_TRACE, events[..|events| - 1]), events[|events| - 1]);
    }
  }

  /**
   * Delivered, dropped and queued records add up to the sequence number in every reachable
   * state, exactly until a line arrives after the last sequence number; from then on the trace
   * reports the largest drop count, so it never looks complete.
   */
  lemma {:induction false} Balance(events: seq<Event>)
    ensures var t := RunFrom(NO_TRACE, events);
            && (Delivered(t.batches) + t.dropped + |t.queue| == t.sequence <==> t.refused == 0)
            && (t.refused > 0 ==> t.dropped == MAX64)
  {
    RunKeeps(events);
  }

  /**
   * A line is recorded exactly while a trace is active, for a session, below the last sequence number.
   * The record is queued under the next number; the oldest one is dropped only from a full buffer.
   */
  lemma {:induction false} LogRecordsExactly(t: Trace, line: Line)
    requires Inv(t)
    ensures var u := Log(t, line);
            && (!t.active || line.session == 0 ==> u == t)
            && (t.active && line.session != 0 && t.sequence < MAX64 ==>
                  && u.recorded == t.recorded + [EntryOf(t.sequence + 1, line)] && u.sequence == t.sequence + 1
                  && (|t.queue| < t.capacity ==>
                        u.queue == t.queue + [EntryOf(t.sequence + 1, line)] && u.dropped == t.dropped)
                  && (|t.queue| == t.capacity ==>
                        && u.queue == t.queue[1..] + [EntryOf(t.sequence + 1, line)]
                        && (t.refused == 0 ==> u.dropped == t.dropped + 1)))
  {
    if t.refused == 0 && t.queue != [] { DroppedIsSmall(t); }
  }

  lemma {:induction false} DroppedIsSmall(t: Trace)
    requires Inv(t) && t.refused == 0 && t.queue != []
    ensures t.dropped < MAX64
  {
  }

  /** What an entry holds of its line. */
  lemma {:induction false} EntryTells(sequence: nat, line: Line)
    ensures var e := EntryOf(sequence, line);
            && e.sequence == sequence && e.session == line.session && e.monotonicNs == line.monotonicNs
            && e.level == line.level && |e.logger| <= 128 && |e.message| <= 1024
            && (!e.truncated <==> line.logger == Some(e.logger) && line.message == Some(e.message))
  {
    if line.logger.Some? {
      CopyFitsAndIsValid(line.logger.value, 128);
      CopyReportsChange(line.logger.value, 128);
    }
    if line.message.Some? {
      CopyFitsAndIsValid(line.message.value, 1024);
      CopyReportsChange(line.message.value, 1024);
    }
  }

  /** A read of the current trace hands out the oldest records, as many as there are or were asked for. */
  lemma {:induction false} ReadTakesExactly(t: Trace, id: nat, maxRecords: nat, timeoutMs: nat)
    requires Inv(t) && 1 <= maxRecords <= 1024 && timeoutMs <= 60000 && t.id != 0
    ensures var u := Step(t, ReadReturn(id, maxRecords, timeoutMs));
            && (id != t.id ==> u == t)
            && (id == t.id ==>
                  && |u.batches| == |t.batches| + 1 && u.batches[..|t.batches|] == t.batches
                  && u.batches[|t.batches|].records + u.queue == t.queue
                  && |u.batches[|t.batches|].records| == (if |t.queue| < maxRecords then |t.queue| else maxRecords)
                  && u.batches[|t.batches|].dropped == t.dropped && u.recorded == t.recorded && u.active == t.active)
  {
  }

  /** A trace starts empty under the next id, exactly if none is active or undrained and the capacity is allowed. */
  lemma {:induction false} StartsExactly(t: Trace, capacity: nat)
    ensures var u := Step(t, StartCall(capacity));
            if 1 <= capacity <= 65536 && !t.active && t.queue == [] && t.id != MAX64
            then u.active && u.id == t.id + 1 && u.capacity == capacity && u.queue == [] && u.dropped == 0
                 && u.sequence == 0 && u.recorded == [] && u.batches == []
            else u == t
    ensures var u := Step(t, StopCall(t.id)); u == if t.id != 0 then t.(active := false) else t
    ensures Step(t, Shutdown) == t.(active := false)
  {
  }

  lemma {:induction false} DeliveredSplits(batches: seq<Batch>, i: nat, j: nat)
    requires i <= j <= |batches|
    ensures Delivered(batches[..j]) == Delivered(batches[..i]) + Delivered(batches[i..j])
  {
    if i < j {
      DeliveredSplits(batches, i, j - 1);
      assert batches[..j][..j - 1] == batches[..j - 1];
      assert batches[i..j][..j - 1 - i] == batches[i..j - 1];
    }
  }

  /**
   * Below saturation each batch has consecutive sequence numbers and holds the records made
   * under them, and the numbers skipped between two batches, beyond the records handed out
   * between them, are exactly the rise in the drop counter.
   */
  lemma {:induction false} GapsAreDrops(events: seq<Event>, i: nat, j: nat)
    requires var t := RunFrom(NO_TRACE, events);
             i < j < |t.batches| && t.refused == 0 && t.batches[i].records != [] && t.batches[j].records != []
    ensures var t := RunFrom(NO_TRACE, events);
            var a, b := t.batches[i].records, t.batches[j].records;
            && (forall k :: 0 <= k < |a| ==> a[k].sequence == a[0].sequence + k
                                             && 1 <= a[k].sequence <= |t.recorded|
                                             && a[k] == t.recorded[a[k].sequence - 1])
            && b[0].sequence - a[|a| - 1].sequence - 1
               == Delivered(t.batches[i + 1..j]) + (t.batches[j].dropped - t.batches[i].dropped)
  {
    RunKeeps(events);
    var t := RunFrom(NO_TRACE, events);
    BatchContents(t, i);
    BatchContents(t, j);
    DeliveredSplits(t.batches, i + 1, j);
    assert t.batches[..i + 1][..i] == t.batches[..i];
  }

  lemma {:induction false} BatchContents(t: Trace, i: nat)
    requires Inv(t) && t.refused == 0 && i < |t.batches|
    ensures var first, b := Delivered(t.batches[..i]) + t.batches[i].dropped, t.batches[i].records;
            && first + |b| <= |t.recorded|
            && forall k :: 0 <= k < |b| ==> b[k] == t.recorded[first + k] && b[k].sequence == first + k + 1
  {
    assert BatchPlaced(t, i);
  }

  // ------------------------------------------------------------ the buffer

  function Slot(head: nat, i: nat, capacity: nat): nat
    requires capacity > 0
  {
    (head + i) % capacity
  }

  lemma {:induction false} Remainder(r: nat, q: nat, n: nat)
    requires r < n && q <= 1
    ensures (q * n + r) % n == r
  {
  }

  lemma {:induction false} SlotWraps(head: nat, i: nat, capacity: nat)
    requires head < capacity && i < capacity
    ensures Slot(head, i, capacity) == if head + i < capacity then head + i else head + i - capacity
  {
    var k := head + i;
    if k < capacity {
      Remainder(k, 0, capacity);
    } else {
      Remainder(k - capacity, 1, capacity);
    }
  }

  lemma {:induction false} SlotAdvances(head: nat, i: nat, capacity: nat)
    requires head < capacity && i + 1 < capacity
    ensures Slot(Slot(head, 1, capacity), i, capacity) == Slot(head, i + 1, capacity)
  {
    SlotWraps(head, 1, capacity);
    SlotWraps(head, i + 1, capacity);
    SlotWraps(Slot(head, 1, capacity), i, capacity);
  }

  /** The queue stored in a circular buffer. */
  function Stored(cells: seq<Entry>, head: nat, queued: nat): (q: seq<Entry>)
    requires queued <= |cells| && (queued > 0 ==> head < |cells|)
    ensures |q| == queued
  {
    seq(queued, i requires 0 <= i < queued => cells[Slot(head, i, |cells|)])
  }

  lemma {:induction false} StoredAppends(cells: seq<Entry>, head: nat, queued: nat, e: Entry)
    requires head < |cells| && queued < |cells|
    ensures Stored(cells[Slot(head, queued, |cells|) := e], head, queued + 1) == Stored(cells, head, queued) + [e]
  {
    var n := |cells|;
    var more := cells[Slot(head, queued, n) := e];
    SlotWraps(head, queued, n);
    forall i | 0 <= i < queued ensures more[Slot(head, i, n)] == cells[Slot(head, i, n)] {
      SlotWraps(head, i, n);
    }
    assert forall i :: 0 <= i < queued ==> Stored(more, head, queued + 1)[i] == Stored(cells, head, queued)[i];
  }

  lemma {:induction false} StoredDrops(cells: seq<Entry>, head: nat, queued: nat)
    requires head < |cells| && 0 < queued <= |cells|
    ensures Stored(cells, Slot(head, 1, |cells|), queued - 1) == Stored(cells, head, queued)[1..]
  {
    var rest, all := Stored(cells, Slot(head, 1, |cells|), queued - 1), Stored(cells, head, queued);
    forall i | 1 <= i < queued ensures rest[i - 1] == all[i] {
      SlotAdvances(head, i - 1, |cells|);
    }
    forall k | 0 <= k < queued - 1 ensures rest[k] == all[1..][k] {
      assert rest[(k + 1) - 1] == all[k + 1];
    }
  }

  const BLANK := Entry(0, 0, 0, "", [], [], false)

  datatype ReadAnswer =
    | BadBounds
    | UnknownTrace
    | Records(records: seq<Entry>, timedOut: bool, queued: nat, dropped: nat, sequence: nat)

  class Ring {
    var records: array<Entry>
    var head: nat
    var queued: nat
    var capacity: nat
    var nextTrace: nat
    var active: bool
    var dropped: nat
    var truncated: nat
    var sequence: nat
    ghost var recorded: seq<Entry>
    ghost var batches: seq<Batch>
    ghost var refused: nat

    ghost predicate Valid()
      reads this
    {
      && records.Length == capacity && queued <= capacity && (capacity > 0 ==> head < capacity)
      && (active ==> capacity > 0)
    }

    ghost function Abs(): Trace
      reads this, records
      requires Valid()
    {
      Trace(nextTrace, active, capacity, Stored(records[..], head, queued), dropped, truncated, sequence,
            recorded, batches, refused)
    }

    constructor ()
      ensures Valid() && fresh(records)
      ensures Abs() == NO_TRACE
    {
      records := new Entry[0];
      head, queued, capacity, nextTrace, active := 0, 0, 0, 0, false;
      dropped, truncated, sequence := 0, 0, 0;
      recorded, batches, refused := [], [], 0;
    }

    method StartTrace(requested: nat) returns (started: bool)
      requires Valid()
      modifies this
      ensures Valid() && (records == old(records) || fresh(records))
      ensures started <==> MayStart(old(Abs()), requested)
      ensures Abs() == Start(old(Abs()), requested)
    {
      if requested == 0 || requested > 65536 {
        return false;
      }
      if active || queued != 0 || nextTrace == MAX64 {
        return false;
      }
      records := new Entry[requested](_ => BLANK);
      nextTrace := nextTrace + 1;
      capacity := requested;
      head, queued := 0, 0;
      Clear();
      active := true;
      started := true;
    }

    method Clear()
      modifies `dropped, `truncated, `sequence, `recorded, `batches, `refused
      ensures dropped == 0 && truncated == 0 && sequence == 0
      ensures recorded == [] && batches == [] && refused == 0
    {
      dropped, truncated, sequence := 0, 0, 0;
      recorded, batches, refused := [], [], 0;
    }

    method DropOldest()
      requires Valid() && queued > 0
      modifies `head, `queued, `dropped
      ensures Valid() && queued == old(queued) - 1
      ensures Abs() == old(Abs()).(queue := old(Abs()).queue[1..], dropped := Bump(old(dropped)))
    {
      StoredDrops(records[..], head, queued);
      SlotWraps(head, 0, capacity);
      head := (head + 1) % capacity;
      queued := queued - 1;
      if dropped < MAX64 {
        dropped := dropped + 1;
      }
    }

    method Append(e: Entry)
      requires Valid() && queued < capacity
      modifies `queued, records
      ensures Valid()
      ensures Abs() == old(Abs()).(queue := old(Abs()).queue + [e])
    {
      StoredAppends(records[..], head, queued, e);
      records[(head + queued) % capacity] := e;
      assert records[..] == old(records[..])[Slot(head, queued, capacity) := e];
      queued := queued + 1;
    }

    method Record(line: Line)
      requires Valid()
      modifies this, records
      ensures Valid() && records == old(records)
      ensures Abs() == Log(old(Abs()), line)
    {
      if !active || line.session == 0 {
        return;
      }
      if sequence >= MAX64 {
        dropped := MAX64;
        refused := refused + 1;
        return;
      }
      if queued == capacity {
        DropOldest();
      }
      sequence := sequence + 1;
      var e := EntryOf(sequence, line);
      if e.truncated && truncated < MAX64 {
        truncated := truncated + 1;
      }
      recorded := recorded + [e];
      Append(e);
    }

    /** Log callbacks and shutdown come from other threads. */
    method OtherThread(e: Event)
      requires Valid() && (e.LineLogged? || e.Shutdown?)
      modifies this, records
      ensures Valid() && records == old(records)
      ensures Abs() == Step(old(Abs()), e)
    {
      match e
      case LineLogged(line) => Record(line);
      case Shutdown => active := false;
    }

    method Wait(others: seq<Event>)
      requires Valid() && forall i :: 0 <= i < |others| ==> others[i].LineLogged? || others[i].Shutdown?
      modifies this, records
      ensures Valid() && records == old(records)
      ensures Abs() == RunFrom(old(Abs()), others)
    {
      for i := 0 to |others|
        invariant Valid() && records == old(records)
        invariant Abs() == RunFrom(old(Abs()), others[..i])
      {
        OtherThread(others[i]);
        assert others[..i + 1][..i] == others[..i];
      }
      assert others[..|others|] == others;
    }

    method PopOldest() returns (e: Entry)
      requires Valid() && queued > 0
      modifies `head, `queued
      ensures Valid() && queued == old(queued) - 1
      ensures e == old(Abs()).queue[0]
      ensures Abs() == old(Abs()).(queue := old(Abs()).queue[1..])
    {
      SlotWraps(head, 0, capacity);
      StoredDrops(records[..], head, queued);
      e := records[head];
      head := (head + 1) % capacity;
      queued := queued - 1;
    }

    method TakeRecords(count: nat) returns (selected: seq<Entry>)
      requires Valid() && count <= queued
      modifies `head, `queued
      ensures Valid()
      ensures selected == old(Abs()).queue[..count]
      ensures Abs() == old(Abs()).(queue := old(Abs()).queue[count..])
    {
      ghost var before := Abs().queue;
      selected := [];
      for index := 0 to count
        invariant Valid() && queued == old(queued) - index
        invariant selected == before[..index]
        invariant Abs() == old(Abs()).(queue := before[index..])
      {
        var e := PopOldest();
        selected := selected + [e];
      }
    }

    /** `others`: what happens while the call waits for a first record. */
    method Read(id: nat, maxRecords: nat, timeoutMs: nat, others: seq<Event>) returns (answer: ReadAnswer)
      requires Valid() && forall i :: 0 <= i < |others| ==> others[i].LineLogged? || others[i].Shutdown?
      modifies this, records
      ensures Valid() && records == old(records)
      ensures !ReadBounds(maxRecords, timeoutMs) ==> answer == BadBounds && Abs() == old(Abs())
      ensures ReadBounds(maxRecords, timeoutMs) && !Names(old(Abs()), id) ==>
        answer == UnknownTrace && Abs() == old(Abs())
      ensures ReadBounds(maxRecords, timeoutMs) && Names(old(Abs()), id) ==>
        var waits := old(queued) == 0 && old(active) && timeoutMs > 0;
        var ready := if waits then RunFrom(old(Abs()), others) else old(Abs());
        var n := Taken(ready, maxRecords);
        && Abs() == Take(ready, maxRecords)
        && answer == Records(ready.queue[..n], n == 0, |ready.queue| - n, ready.dropped, ready.sequence)
    {
      if maxRecords == 0 || maxRecords > 1024 || timeoutMs > 60000 {
        return BadBounds;
      }
      if nextTrace == 0 || id != nextTrace {
        return UnknownTrace;
      }
      if queued == 0 && active && timeoutMs > 0 {
        Wait(others);
      }
      ghost var ready := Abs();
      var count := if queued <= maxRecords then queued else maxRecords;
      var selected := TakeRecords(count);
      batches := batches + [Batch(selected, dropped)];
      answer := Records(selected, selected == [], queued, dropped, sequence);
    }

    method Stop(id: nat) returns (known: bool)
      requires Valid()
      modifies `active
      ensures Valid() && (known <==> Names(old(Abs()), id))
      ensures Abs() == Step(old(Abs()), StopCall(id))
    {
      if nextTrace == 0 || id != nextTrace {
        return false;
      }
      active := false;
      known := true;
    }
  }
}
