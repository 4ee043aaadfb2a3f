module Common {
  datatype Option<+T> = None | Some(value: T)

  /** The largest `std::uint64_t`. */
  const MAX64: nat := 0xFFFF_FFFF_FFFF_FFFF

  /** OpenDNP3's `TaskCompletion`. */
  datatype Completion =
    | SUCCESS | FAILURE_BAD_RESPONSE | FAILURE_RESPONSE_TIMEOUT | FAILURE_START_TIMEOUT
    | FAILURE_MESSAGE_FORMAT_ERROR | FAILURE_NO_COMMS

  /** The byte of a stream. */
  type Byte = b: int | 0 <= b < 0x100

  predicate Distinct<T(==)>(s: seq<T>) {
    forall i, j :: 0 <= i < j < |s| ==> s[i] != s[j]
  }

  // ------------------------------------------------------------- sorting

  function Insert<T>(x: T, s: seq<T>, before: (T, T) -> bool): (t: seq<T>)
    ensures multiset(t) == multiset(s) + multiset{x}
    ensures |t| == |s| + 1
  {
    if s == [] || before(x, s[0]) then [x] + s
    else
      var rest := Insert(x, s[1..], before);
      assert s == [s[0]] + s[1..];
      [s[0]] + rest
  }

  function Sort<T>(s: seq<T>, before: (T, T) -> bool): (t: seq<T>)
    ensures multiset(t) == multiset(s)
    ensures |t| == |s|
  {
    if s == [] then []
    else
      assert s == [s[0]] + s[1..];
      Insert(s[0], Sort(s[1..], before), before)
  }

  /** No element comes before its left neighbour. */
  ghost predicate InOrder<T>(s: seq<T>, before: (T, T) -> bool) {
    forall i :: 0 < i < |s| ==> !before(s[i], s[i - 1])
  }

  ghost predicate Asymmetric<T(!new)>(before: (T, T) -> bool) {
    forall a, b :: before(a, b) ==> !before(b, a)
  }

  lemma {:induction false} InsertSorts<T(!new)>(x: T, s: seq<T>, before: (T, T) -> bool)
    requires InOrder(s, before) && Asymmetric(before)
    ensures InOrder(Insert(x, s, before), before)
    ensures s != [] ==> Insert(x, s, before)[0] == x || Insert(x, s, before)[0] == s[0]
  {
    if s != [] && !before(x, s[0]) {
      InsertSorts(x, s[1..], before);
      var rest := Insert(x, s[1..], before);
      assert rest[0] == x || (|s| > 1 && rest[0] == s[1]);
    }
  }

  lemma {:induction false} SortSorts<T(!new)>(s: seq<T>, before: (T, T) -> bool)
    requires Asymmetric(before)
    ensures InOrder(Sort(s, before), before)
  {
    if s != [] {
      SortSorts(s[1..], before);
      InsertSorts(s[0], Sort(s[1..], before), before);
    }
  }
}
