// The store of unsolicited events: a bounded queue per session that hands out no event of a
// fragment that is still being processed.

module Unsolicited {
  import opened Common

  /** One measurement as `record` stores it; `value` stands for the fields the store only passes on. */
  datatype Item = Item(receiveSeq: nat, session: nat, fragment: nat, kind: string, value: int)

  /** No step reads `recorded` and `delivered`: what this session stored and handed out so far. */
  datatype Store = Store(
    capacity: nat, sessionActive: bool, session: nat, fragmentOpen: bool, currentFragment: nat,
    items: seq<Item>, lastSequence: nat, received: nat, dropped: nat, fragments: nat, byKind: map<string, nat>,
    recorded: seq<Item>, delivered: seq<Item>)

  function Fresh(capacity: nat): Store {
    Store(capacity, false, 0, false, 0, [], 0, 0, 0, 0, map[], [], [])
  }

  function BeginSession(s: Store, session: nat): Store {
    Fresh(s.capacity).(sessionActive := true, session := session)
  }

  function EndSession(s: Store): Store {
    s.(items := [], sessionActive := false, session := 0, fragmentOpen := false, currentFragment := 0)
  }

  function BeginFragment(s: Store, unsolicited: bool): Store {
    if s.sessionActive && unsolicited
    then s.(fragmentOpen := true, fragments := s.fragments + 1, currentFragment := s.fragments + 1)
    else s.(fragmentOpen := false)
  }

  function EndFragment(s: Store): Store {
    s.(fragmentOpen := false, currentFragment := 0)
  }

  function Tally(counts: map<string, nat>, kind: string): map<string, nat> {
    counts[kind := (if kind in counts then counts[kind] else 0) + 1]
  }

  function Record(s: Store, kind: string, value: int): Store {
    if !s.sessionActive || !s.fragmentOpen then s
    else
      var item := Item(s.lastSequence + 1, s.session, s.currentFragment, kind, value);
      var full := s.items != [] && |s.items| == s.capacity;
      s.(lastSequence := s.lastSequence + 1, received := s.received + 1, byKind := Tally(s.byKind, kind),
         items := (if full then s.items[1..] else s.items) + [item],
         dropped := if full then s.dropped + 1 else s.dropped,
         recorded := s.recorded + [item])
  }

  function Ready(s: Store, maxEvents: nat): nat {
    if s.fragmentOpen then 0 else if |s.items| <= maxEvents then |s.items| else maxEvents
  }

  function Take(s: Store, maxEvents: nat): Store {
    var n := Ready(s, maxEvents);
    s.(items := s.items[n..], delivered := s.delivered + s.items[..n])
  }

  datatype Event =
    | SessionBegun(session: nat)
    | SessionEnded
    | FragmentBegun(unsolicited: bool)
    | FragmentEnded
    | Recorded(kind: string, value: int)
    | Taken(maxEvents: nat)

  function Step(s: Store, e: Event): Store {
    match e
    case SessionBegun(session) => BeginSession(s, session)
    case SessionEnded => EndSession(s)
    case FragmentBegun(unsolicited) => BeginFragment(s, unsolicited)
    case FragmentEnded => EndFragment(s)
    case Recorded(kind, value) => Record(s, kind, value)
    case Taken(maxEvents) => Take(s, maxEvents)
  }

  function RunFrom(s: Store, events: seq<Event>): Store {
    if events == [] then s else Step(RunFrom(s, events[..|events| - 1]), events[|events| - 1])
  }

  // ------------------------------------------------------------ invariants

  function OfKind(items: seq<Item>, kind: string): nat {
    if items == [] then 0
    else OfKind(items[..|items| - 1], kind) + (if items[|items| - 1].kind == kind then 1 else 0)
  }

  ghost predicate Counted(s: Store) {
    && |s.recorded| == s.lastSequence == s.received
    && (forall k :: 0 <= k < |s.recorded| ==> s.recorded[k].receiveSeq == k + 1)
    && (forall kind :: OfKind(s.recorded, kind) == if kind in s.byKind then s.byKind[kind] else 0)
  }

  /** While a session lasts the queue is the end of what it recorded, and nothing is lost uncounted. */
  ghost predicate Balanced(s: Store) {
    && |s.items| <= s.capacity
    && |s.items| <= |s.recorded| == s.lastSequence
    && (if s.sessionActive then
          && |s.delivered| + s.dropped + |s.items| == s.lastSequence
          && s.items == s.recorded[s.lastSequence - |s.items|..]
        else s.items == [] && !s.fragmentOpen)
  }

  /** Events leave in the order they came, each at most once and unchanged. */
  ghost predicate InOrder(s: Store) {
    && |s.items| <= |s.recorded| == s.lastSequence
    && (forall k :: 0 <= k < |s.delivered| ==>
          && 1 <= s.delivered[k].receiveSeq <= s.lastSequence - |s.items|
          && s.delivered[k] == s.recorded[s.delivered[k].receiveSeq - 1])
    && (forall j, k :: 0 <= j < k < |s.delivered| ==> s.delivered[j].receiveSeq < s.delivered[k].receiveSeq)
    && (s.sessionActive && s.dropped == 0 ==> s.delivered + s.items == s.recorded)
  }

  /** What is queued or handed out belongs to begun fragments, and nothing handed out to the open one. */
  ghost predicate Whole(s: Store) {
    && (s.fragmentOpen ==> s.currentFragment == s.fragments)
    && (forall k :: 0 <= k < |s.items| ==> s.items[k].fragment <= s.fragments)
    && (forall k :: 0 <= k < |s.delivered| ==>
          s.delivered[k].fragment <= s.fragments && (s.fragmentOpen ==> s.delivered[k].fragment < s.currentFragment))
  }

  ghost predicate Inv(s: Store) {
    s.capacity > 0 && Counted(s) && Balanced(s) && InOrder(s) && Whole(s)
  }

  lemma {:induction false} RecordKeepsCounts(s: Store, kind: string, value: int)
    requires Inv(s)
    ensures Counted(Record(s, kind, value))
  {
    var t := Record(s, kind, value);
    if t != s {
      assert t.recorded[..|s.recorded|] == s.recorded;
    }
  }

  lemma {:induction false} RecordKeeps(s: Store, kind: string, value: int)
    requires Inv(s)
    ensures Inv(Record(s, kind, value))
  {
    RecordKeepsCounts(s, kind, value);
    RecordKeepsOrder(s, kind, value);
  }

  lemma {:induction false} RecordKeepsOrder(s: Store, kind: string, value: int)
    requires s.capacity > 0 && Balanced(s) && InOrder(s)
    ensures InOrder(Record(s, kind, value))
  {
    var t := Record(s, kind, value);
    if t != s && t.dropped == 0 {
      var last := [t.items[|t.items| - 1]];
      assert s.delivered + (s.items + last) == (s.delivered + s.items) + last;
    }
  }

  lemma {:induction false} QueueIsNumbered(s: Store, k: nat)
    requires Inv(s) && k < |s.items|
    ensures var q := s.lastSequence - |s.items| + k;
            s.items[k] == s.recorded[q] && s.items[k].receiveSeq == q + 1
  {
  }

  lemma {:induction false} TakeKeepsOrder(s: Store, maxEvents: nat)
    requires Inv(s)
    ensures InOrder(Take(s, maxEvents))
  {
    var n, t := Ready(s, maxEvents), Take(s, maxEvents);
    forall k | 0 <= k < |t.delivered|
      ensures 1 <= t.delivered[k].receiveSeq <= t.lastSequence - |t.items|
      ensures t.delivered[k] == t.recorded[t.delivered[k].receiveSeq - 1]
      ensures k >= |s.delivered| ==> t.delivered[k].receiveSeq == s.lastSequence - |s.items| + (k - |s.delivered|) + 1
    {
      if k >= |s.delivered| { QueueIsNumbered(s, k - |s.delivered|); }
    }
    assert (s.delivered + s.items[..n]) + s.items[n..] == s.delivered + s.items;
  }

  lemma {:induction false} TakeKeeps(s: Store, maxEvents: nat)
    requires Inv(s)
    ensures Inv(Take(s, maxEvents))
  {
    TakeKeepsOrder(s, maxEvents);
  }

  lemma {:induction false} EmptyKeeps(s: Store)
    requires s.capacity > 0 && s == Fresh(s.capacity).(sessionActive := s.sessionActive, session := s.session)
    ensures Inv(s)
  {
    forall kind ensures OfKind(s.recorded, kind) == 0 {}
  }

  lemma {:induction false} EndKeeps(s: Store)
    requires Inv(s)
    ensures Inv(EndSession(s))
  {
    assert Counted(EndSession(s)) && Balanced(EndSession(s)) && Whole(EndSession(s));
  }

  /** Opening and closing fragments moves no event. */
  predicate SameEvents(s: Store, t: Store) {
    && t == s.(fragmentOpen := t.fragmentOpen, currentFragment := t.currentFragment, fragments := t.fragments)
  }

  lemma {:induction false} SameEventsKeep(s: Store, t: Store)
    requires Inv(s) && SameEvents(s, t) && (t.fragmentOpen ==> s.sessionActive)
    ensures Counted(t) && Balanced(t) && InOrder(t)
  {
  }

  lemma {:induction false} FragmentKeeps(s: Store, unsolicited: bool)
    requires Inv(s)
    ensures Inv(BeginFragment(s, unsolicited))
  {
    SameEventsKeep(s, BeginFragment(s, unsolicited));
  }

  lemma {:induction false} FragmentEndKeeps(s: Store)
    requires Inv(s)
    ensures Inv(EndFragment(s))
  {
    SameEventsKeep(s, EndFragment(s));
  }

  lemma {:induction false} StepKeeps(s: Store, e: Event)
    requires Inv(s)
    ensures Inv(Step(s, e))
  {
    match e
    case Recorded(kind, value) => RecordKeeps(s, kind, value);
    case Taken(maxEvents) => TakeKeeps(s, maxEvents);
    case SessionBegun(session) => EmptyKeeps(BeginSession(s, session));
    case SessionEnded => EndKeeps(s);
    case FragmentBegun(unsolicited) => FragmentKeeps(s, unsolicited);
    case FragmentEnded => FragmentEndKeeps(s);
  }

  lemma {:induction false} RunKeeps(capacity: nat, events: seq<Event>)
    requires capacity > 0
    ensures Inv(RunFrom(Fresh(capacity), events))
  {
    if events != [] {
      RunKeeps(capacity, events[..|events| - 1]);
      StepKeeps(RunFrom(Fresh(capacity), events[..|events| - 1]), events[|events| - 1]);
    } else {
      EmptyKeeps(Fresh(capacity));
    }
  }

  /**
   * Within a session, delivered, dropped and queued events add up, the counts by kind are exact,
   * what is handed out is what was recorded, in order and without repeats, and a session that
   * reports no drop has lost nothing.
   */
  lemma {:induction false} SessionBalance(capacity: nat, events: seq<Event>)
    requires capacity > 0
    ensures var s := RunFrom(Fresh(capacity), events);
            && s.received == s.lastSequence
            && (s.sessionActive ==> |s.delivered| + s.dropped + |s.items| == s.lastSequence)
            && (forall kind :: kind in s.byKind ==> s.byKind[kind] == OfKind(s.recorded, kind))
            && (!s.sessionActive ==> s.items == [])
            && InOrder(s)
  {
    RunKeeps(capacity, events);
  }

  /**
   * An event is stored exactly in an open fragment of a session, under the next number; the oldest one
   * is dropped only from a full store.
   */
  lemma {:induction false} RecordStoresExactly(s: Store, kind: string, value: int)
    requires Inv(s)
    ensures var t := Step(s, Recorded(kind, value));
            && (!s.sessionActive || !s.fragmentOpen ==> t == s)
            && (s.sessionActive && s.fragmentOpen ==>
                  && |t.items| > 0 && t.items[|t.items| - 1] == Item(s.lastSequence + 1, s.session, s.currentFragment, kind, value)
                  && t.recorded == s.recorded + [t.items[|t.items| - 1]]
                  && (|s.items| < s.capacity ==> t.items[..|t.items| - 1] == s.items && t.dropped == s.dropped)
                  && (|s.items| == s.capacity ==> t.items[..|t.items| - 1] == s.items[1..] && t.dropped == s.dropped + 1))
  {
  }

  /** A take hands out the oldest events, as many as there are or were asked for, unless a fragment is open. */
  lemma {:induction false} TakeHandsOutExactly(s: Store, maxEvents: nat)
    ensures var t := Step(s, Taken(maxEvents));
            var n := |t.delivered| - |s.delivered|;
            && n == (if s.fragmentOpen then 0 else if |s.items| < maxEvents then |s.items| else maxEvents)
            && t.delivered == s.delivered + s.items[..n] && t.items == s.items[n..] && t.recorded == s.recorded
  {
  }

  /** Which fragments and sessions are open. */
  lemma {:induction false} OpensExactly(s: Store, session: nat, unsolicited: bool)
    ensures var t := Step(s, FragmentBegun(unsolicited));
            && (t.fragmentOpen <==> s.sessionActive && unsolicited)
            && (t.fragmentOpen ==> t.fragments == s.fragments + 1 && t.currentFragment == t.fragments)
            && t.items == s.items && t.delivered == s.delivered
    ensures var t := Step(s, FragmentEnded); !t.fragmentOpen && t.items == s.items && t.delivered == s.delivered
    ensures var t := Step(s, SessionBegun(session));
            && t.sessionActive && t.session == session && !t.fragmentOpen && t.items == [] && t.recorded == []
            && t.lastSequence == 0 && t.dropped == 0 && t.byKind == map[] && t.capacity == s.capacity
    ensures var t := Step(s, SessionEnded); !t.sessionActive && !t.fragmentOpen && t.items == [] && t.dropped == s.dropped
  {
  }

  /** A call made while a fragment is open hands out nothing, and no earlier call saw a part of it. */
  lemma {:induction false} OpenFragmentStaysHidden(capacity: nat, events: seq<Event>, maxEvents: nat)
    requires capacity > 0 && RunFrom(Fresh(capacity), events).fragmentOpen
    ensures var s := RunFrom(Fresh(capacity), events);
            && Take(s, maxEvents) == s
            && forall k :: 0 <= k < |s.delivered| ==> s.delivered[k].fragment != s.currentFragment
  {
    RunKeeps(capacity, events);
    var s := RunFrom(Fresh(capacity), events);
    assert s.items[0..] == s.items && s.delivered + s.items[..0] == s.delivered;
  }

  // ------------------------------------------------------------ the object

  datatype Answer = NotConnected | Measurements(selected: seq<Item>, timedOut: bool, remaining: nat, dropped: nat)

  class UnsolicitedStore {
    const capacity: nat
    var sessionActive: bool
    var session: nat
    var fragmentOpen: bool
    var currentFragment: nat
    var items: seq<Item>
    var lastSequence: nat
    var received: nat
    var dropped: nat
    var fragments: nat
    var byKind: map<string, nat>
    ghost var recorded: seq<Item>
    ghost var delivered: seq<Item>

    ghost function Abs(): Store
      reads this
    {
      Store(capacity, sessionActive, session, fragmentOpen, currentFragment, items, lastSequence, received, dropped,
            fragments, byKind, recorded, delivered)
    }

    constructor (capacity: nat)
      requires capacity > 0
      ensures Abs() == Fresh(capacity)
    {
      this.capacity := capacity;
      sessionActive, session, fragmentOpen, currentFragment, items := false, 0, false, 0, [];
      lastSequence, received, dropped, fragments, byKind := 0, 0, 0, 0, map[];
      recorded, delivered := [], [];
    }

    method ClearTotals()
      modifies `lastSequence, `received, `dropped, `fragments, `byKind, `recorded, `delivered
      ensures lastSequence == 0 && received == 0 && dropped == 0 && fragments == 0 && byKind == map[]
      ensures recorded == [] && delivered == []
    {
      lastSequence, received, dropped, fragments, byKind := 0, 0, 0, 0, map[];
      recorded, delivered := [], [];
    }

    method BeginSession(id: nat)
      modifies this
      ensures Abs() == Step(old(Abs()), SessionBegun(id))
    {
      items, sessionActive, session, fragmentOpen, currentFragment := [], true, id, false, 0;
      ClearTotals();
    }

    method EndSession()
      modifies this
      ensures Abs() == Step(old(Abs()), SessionEnded)
    {
      items, sessionActive, session, fragmentOpen, currentFragment := [], false, 0, false, 0;
    }

    method BeginFragment(unsolicited: bool)
      modifies `fragmentOpen, `fragments, `currentFragment
      ensures Abs() == Step(old(Abs()), FragmentBegun(unsolicited))
    {
      fragmentOpen := sessionActive && unsolicited;
      if fragmentOpen {
        fragments := fragments + 1;
        currentFragment := fragments;
      }
    }

    method EndFragment()
      modifies `fragmentOpen, `currentFragment
      ensures Abs() == Step(old(Abs()), FragmentEnded)
    {
      fragmentOpen := false;
      currentFragment := 0;
    }

    method Push(item: Item)
      modifies `items, `dropped, `recorded
      requires capacity > 0
      ensures var full := |old(items)| == capacity;
              && items == (if full then old(items)[1..] else old(items)) + [item]
              && dropped == (if full then old(dropped) + 1 else old(dropped))
      ensures recorded == old(recorded) + [item]
    {
      if |items| == capacity {
        items := items[1..];
        dropped := dropped + 1;
      }
      items := items + [item];
      recorded := recorded + [item];
    }

    method Record(kind: string, value: int)
      requires capacity > 0
      modifies `lastSequence, `received, `byKind, `items, `dropped, `recorded
      ensures Abs() == Step(old(Abs()), Recorded(kind, value))
    {
      if !sessionActive || !fragmentOpen {
        return;
      }
      lastSequence := lastSequence + 1;
      received := received + 1;
      byKind := Tally(byKind, kind);
      Push(Item(lastSequence, session, currentFragment, kind, value));
    }

    method OtherThread(e: Event)
      requires capacity > 0 && !e.Taken?
      modifies this
      ensures Abs() == Step(old(Abs()), e)
    {
      match e
      case SessionBegun(id) => BeginSession(id);
      case SessionEnded => EndSession();
      case FragmentBegun(unsolicited) => BeginFragment(unsolicited);
      case FragmentEnded => EndFragment();
      case Recorded(kind, value) => Record(kind, value);
    }

    method Wait(others: seq<Event>)
      requires capacity > 0 && forall i :: 0 <= i < |others| ==> !others[i].Taken?
      modifies this
      ensures Abs() == RunFrom(old(Abs()), others)
    {
      for i := 0 to |others|
        invariant Abs() == RunFrom(old(Abs()), others[..i])
      {
        OtherThread(others[i]);
        assert others[..i + 1][..i] == others[..i];
      }
      assert others[..|others|] == others;
    }

    method PopFront(count: nat) returns (selected: seq<Item>)
      requires count <= |items|
      modifies `items, `delivered
      ensures selected == old(items)[..count] && items == old(items)[count..]
      ensures delivered == old(delivered) + selected
    {
      selected := [];
      for index := 0 to count
        invariant selected == old(items)[..index] && items == old(items)[index..]
        invariant delivered == old(delivered)
      {
        selected := selected + [items[0]];
        items := items[1..];
      }
      delivered := delivered + selected;
    }

    /** `others`: what happens while the call waits for a whole fragment. */
    method Take(maxEvents: nat, timeoutMs: nat, others: seq<Event>) returns (answer: Answer)
      requires capacity > 0 && forall i :: 0 <= i < |others| ==> !others[i].Taken?
      modifies this
      ensures
        var waits := (old(items) == [] || old(fragmentOpen)) && timeoutMs > 0 && old(sessionActive);
        var ready := if waits then RunFrom(old(Abs()), others) else old(Abs());
        var n := Ready(ready, maxEvents);
        && Abs() == Step(ready, Taken(maxEvents))
        && answer == if ready.sessionActive
                     then Measurements(ready.items[..n], n == 0, |ready.items| - n, ready.dropped)
                     else NotConnected
    {
      if (items == [] || fragmentOpen) && timeoutMs > 0 && sessionActive {
        Wait(others);
      }
      var count := if fragmentOpen then 0 else if |items| <= maxEvents then |items| else maxEvents;
      var selected := PopFront(count);
      if !sessionActive {
        return NotConnected;
      }
      answer := Measurements(selected, selected == [], |items|, dropped);
    }
  }
}
