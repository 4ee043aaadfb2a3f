// The two UTF-8 checkers of the native host, against the byte sequences of
// section 4 of RFC 3629: the request validator decodes and compares, the trace
// copier works on byte ranges.  The masks and shifts of the source are written as
// division and remainder.

module Utf8 {
  import opened Common

  // ------------------------------------------------------------- RFC 3629

  predicate Tail(b: Byte) { 0x80 <= b <= 0xBF }

  /** Length of the UTF8-char a text starts with, by the ABNF of section 4; 0 if there is none. */
  function CharLength(s: seq<Byte>): (n: nat)
    ensures n <= |s| && n <= 4
  {
    if |s| >= 1 && s[0] <= 0x7F then 1
    else if |s| >= 2 && 0xC2 <= s[0] <= 0xDF && Tail(s[1]) then 2
    else if |s| >= 3 && s[0] == 0xE0 && 0xA0 <= s[1] <= 0xBF && Tail(s[2]) then 3
    else if |s| >= 3 && 0xE1 <= s[0] <= 0xEC && Tail(s[1]) && Tail(s[2]) then 3
    else if |s| >= 3 && s[0] == 0xED && 0x80 <= s[1] <= 0x9F && Tail(s[2]) then 3
    else if |s| >= 3 && 0xEE <= s[0] <= 0xEF && Tail(s[1]) && Tail(s[2]) then 3
    else if |s| >= 4 && s[0] == 0xF0 && 0x90 <= s[1] <= 0xBF && Tail(s[2]) && Tail(s[3]) then 4
    else if |s| >= 4 && 0xF1 <= s[0] <= 0xF3 && Tail(s[1]) && Tail(s[2]) && Tail(s[3]) then 4
    else if |s| >= 4 && s[0] == 0xF4 && 0x80 <= s[1] <= 0x8F && Tail(s[2]) && Tail(s[3]) then 4
    else 0
  }

  predicate ValidUtf8(s: seq<Byte>)
    decreases |s|
  {
    s == [] || (CharLength(s) > 0 && ValidUtf8(s[CharLength(s)..]))
  }

  // ------------------------------------------------ decode, then compare

  /** `first & 0xE0 == 0xC0`, `first & 0xF0 == 0xE0`, `first & 0xF8 == 0xF0`. */
  function Continuations(first: Byte): nat {
    if first / 0x20 == 0x06 then 1
    else if first / 0x10 == 0x0E then 2
    else if first / 0x08 == 0x1E then 3
    else 0
  }

  /** `first & 0x1F`, `first & 0x0F` or `first & 0x07`. */
  function LeadBits(first: Byte): nat {
    if first / 0x20 == 0x06 then first % 0x20
    else if first / 0x10 == 0x0E then first % 0x10
    else first % 0x08
  }

  function Minimum(count: nat): nat {
    if count == 1 then 0x80 else if count == 2 then 0x800 else 0x10000
  }

  /** `(codePoint << 6) | (next & 0x3F)`. */
  function Append(codePoint: nat, next: Byte): nat {
    codePoint * 0x40 + next % 0x40
  }

  /** Lead bits followed by the low six bits of each continuation byte. */
  function Decode(first: Byte, rest: seq<Byte>): nat {
    if rest == [] then LeadBits(first) else Append(Decode(first, rest[..|rest| - 1]), rest[|rest| - 1])
  }

  predicate InRange(codePoint: nat, count: nat) {
    codePoint >= Minimum(count) && codePoint <= 0x10FFFF && !(0xD800 <= codePoint <= 0xDFFF)
  }

  lemma {:induction false} DecodeSnoc(first: Byte, rest: seq<Byte>, next: Byte)
    ensures Decode(first, rest + [next]) == Append(Decode(first, rest), next)
  {
    assert (rest + [next])[..|rest|] == rest;
  }

  lemma {:induction false} TwoByteRange(a: Byte, b: Byte)
    requires Continuations(a) == 1 && Tail(b)
    ensures InRange(Append(LeadBits(a), b), 1) <==> 0xC2 <= a <= 0xDF
  {
  }

  lemma {:induction false} ThreeByteRange(a: Byte, b: Byte, c: Byte)
    requires Continuations(a) == 2 && Tail(b) && Tail(c)
    ensures InRange(Append(Append(LeadBits(a), b), c), 2)
       <==> (a == 0xE0 && b >= 0xA0) || 0xE1 <= a <= 0xEC || (a == 0xED && b <= 0x9F) || 0xEE <= a <= 0xEF
  {
  }

  lemma {:induction false} FourByteRange(a: Byte, b: Byte, c: Byte, d: Byte)
    requires Continuations(a) == 3 && Tail(b) && Tail(c) && Tail(d)
    ensures InRange(Append(Append(Append(LeadBits(a), b), c), d), 3)
       <==> (a == 0xF0 && b >= 0x90) || 0xF1 <= a <= 0xF3 || (a == 0xF4 && b <= 0x8F)
  {
  }

  /** The ABNF length is the lead byte's count plus one, or nothing matches. */
  lemma {:induction false} NoLengthWithoutLead(s: seq<Byte>)
    requires s != [] && s[0] > 0x7F
    ensures CharLength(s) == 0 || CharLength(s) == Continuations(s[0]) + 1
    ensures CharLength(s) > 0 ==> forall i :: 1 <= i <= Continuations(s[0]) ==> Tail(s[i])
    ensures CharLength(s) > 0 ==> Continuations(s[0]) > 0
  {
  }

  /** Decoding and comparing accepts exactly the byte sequences the ABNF lists. */
  lemma {:induction false} DecodingMatchesTable(s: seq<Byte>, count: nat)
    requires s != [] && s[0] > 0x7F && count == Continuations(s[0])
    requires 0 < count < |s| && forall i :: 1 <= i <= count ==> Tail(s[i])
    ensures CharLength(s) > 0 <==> InRange(Decode(s[0], s[1..count + 1]), count)
  {
    var rest := s[1..count + 1];
    DecodeSnoc(s[0], [], s[1]);
    assert Tail(s[1]);
    if count == 1 {
      assert rest == [] + [s[1]];
      TwoByteRange(s[0], s[1]);
    } else {
      DecodeSnoc(s[0], [s[1]], s[2]);
      assert [] + [s[1]] == [s[1]] && Tail(s[2]);
      if count == 2 {
        assert rest == [s[1]] + [s[2]];
        ThreeByteRange(s[0], s[1], s[2]);
      } else {
        DecodeSnoc(s[0], [s[1], s[2]], s[3]);
        assert [s[1]] + [s[2]] == [s[1], s[2]] && Tail(s[3]);
        assert rest == [s[1], s[2]] + [s[3]];
        FourByteRange(s[0], s[1], s[2], s[3]);
      }
    }
  }

  /** One turn of the validator's loop: the length of the character at `index`, or 0 to reject. */
  method DecodeAt(input: seq<Byte>, index: nat) returns (length: nat)
    requires index < |input|
    ensures length == CharLength(input[index..])
  {
    var first := input[index];
    ghost var here := input[index..];
    assert here[0] == first;
    if first <= 0x7F {
      return 1;
    }
    NoLengthWithoutLead(here);
    var continuationCount: nat, codePoint: nat, minimum: nat := 0, 0, 0;
    if first / 0x20 == 0x06 {
      continuationCount, codePoint, minimum := 1, first % 0x20, 0x80;
    } else if first / 0x10 == 0x0E {
      continuationCount, codePoint, minimum := 2, first % 0x10, 0x800;
    } else if first / 0x08 == 0x1E {
      continuationCount, codePoint, minimum := 3, first % 0x08, 0x10000;
    } else {
      return 0;
    }
    if index + continuationCount >= |input| {
      return 0;
    }
    for offset := 1 to continuationCount + 1
      invariant codePoint == Decode(first, here[1..offset])
      invariant forall i :: 1 <= i < offset ==> Tail(here[i])
    {
      var next := input[index + offset];
      assert here[offset] == next;
      if next / 0x40 != 0x02 {
        return 0;
      }
      assert here[1..offset + 1] == here[1..offset] + [next];
      DecodeSnoc(first, here[1..offset], next);
      codePoint := codePoint * 0x40 + next % 0x40;
    }
    DecodingMatchesTable(here, continuationCount);
    if codePoint < minimum || codePoint > 0x10FFFF || (codePoint >= 0xD800 && codePoint <= 0xDFFF) {
      return 0;
    }
    return continuationCount + 1;
  }

  /** The request validator. */
  method IsValidUtf8(input: seq<Byte>) returns (valid: bool)
    ensures valid == ValidUtf8(input)
  {
    var index := 0;
    while index < |input|
      invariant 0 <= index <= |input|
      invariant ValidUtf8(input) == ValidUtf8(input[index..])
    {
      var length := DecodeAt(input, index);
      if length == 0 {
        return false;
      }
      assert input[index..][length..] == input[index + length..];
      index := index + length;
    }
    return true;
  }

  // ------------------------------------------------------ bounded copying

  const QUESTION: Byte := 0x3F

  datatype Copy = Copy(bytes: seq<Byte>, changed: bool)

  /** What a copy into `room` bytes keeps: whole characters, with each stray byte as a question mark. */
  function CopyOf(s: seq<Byte>, room: nat): Copy
    decreases |s|
  {
    if s == [] then Copy([], false)
    else
      var n := CharLength(s);
      if n == 0 then
        if room == 0 then Copy([], true)
        else Copy([QUESTION] + CopyOf(s[1..], room - 1).bytes, true)
      else if n > room then Copy([], true)
      else
        var rest := CopyOf(s[n..], room - n);
        Copy(s[..n] + rest.bytes, rest.changed)
  }

  /** The byte-range test of the copier, for a lead byte with its table length. */
  function LeadLength(first: Byte): nat {
    if 0xC2 <= first <= 0xDF then 2
    else if 0xE0 <= first <= 0xEF then 3
    else if 0xF0 <= first <= 0xF4 then 4
    else 1
  }

  predicate SecondAllowed(first: Byte, next: Byte) {
    !(first == 0xE0 && next < 0xA0) && !(first == 0xED && next >= 0xA0)
    && !(first == 0xF0 && next < 0x90) && !(first == 0xF4 && next >= 0x90)
  }

  lemma {:induction false} RangesMatchTable(s: seq<Byte>)
    requires s != []
    ensures CharLength(s) > 0
       <==> (s[0] < 0x80 || LeadLength(s[0]) > 1) && LeadLength(s[0]) <= |s|
            && (forall i :: 1 <= i < LeadLength(s[0]) ==> Tail(s[i]))
            && (LeadLength(s[0]) > 1 ==> SecondAllowed(s[0], s[1]))
    ensures CharLength(s) > 0 ==> CharLength(s) == LeadLength(s[0])
  {
    if LeadLength(s[0]) <= |s| && forall i :: 1 <= i < LeadLength(s[0]) ==> Tail(s[i]) {
      if LeadLength(s[0]) >= 2 { assert Tail(s[1]); }
      if LeadLength(s[0]) >= 3 { assert Tail(s[2]); }
      if LeadLength(s[0]) >= 4 { assert Tail(s[3]); }
    }
  }

  /** A C string: its bytes followed by the first NUL. */
  predicate CString(source: seq<Byte>) {
    && source != [] && source[|source| - 1] == 0
    && forall i :: 0 <= i < |source| - 1 ==> source[i] != 0
  }

  /** The copier's test of the character at `read`: it stops looking at the first byte that is wrong. */
  method CharacterAt(source: seq<Byte>, read: nat) returns (valid: bool, length: nat)
    requires CString(source) && read < |source| - 1
    ensures var n := CharLength(source[..|source| - 1][read..]);
            (valid <==> n > 0) && (valid ==> length == n)
  {
    var first := source[read];
    ghost var here := source[..|source| - 1][read..];
    assert here[0] == first;
    length := 1;
    if 0xC2 <= first <= 0xDF {
      length := 2;
    } else if 0xE0 <= first <= 0xEF {
      length := 3;
    } else if 0xF0 <= first <= 0xF4 {
      length := 4;
    }
    RangesMatchTable(here);
    valid := first < 0x80 || length > 1;
    var index := 1;
    while valid && index < length
      invariant 1 <= index <= length
      invariant valid ==> index <= |here| && forall i :: 1 <= i < index ==> Tail(here[i])
      invariant valid && index > 1 ==> SecondAllowed(first, here[1])
      invariant valid ==> first < 0x80 || length > 1
      invariant !valid ==> CharLength(here) == 0
      decreases length - index, valid
    {
      var next := source[read + index];
      assert index < |here| ==> here[index] == next;
      valid := next >= 0x80 && next <= 0xBF;
      if index == 1 {
        valid := valid && SecondAllowed(first, next);
      }
      index := index + 1;
    }
  }

  /** A copy in progress: what is written already, then the copy of what is left. */
  function After(written: seq<Byte>, changed: bool, left: seq<Byte>, room: nat): Copy {
    var rest := CopyOf(left, room);
    Copy(written + rest.bytes, changed || rest.changed)
  }

  lemma {:induction false} StrayStep(written: seq<Byte>, changed: bool, left: seq<Byte>, room: nat)
    requires left != [] && CharLength(left) == 0 && room > 0
    ensures After(written, changed, left, room) == After(written + [QUESTION], true, left[1..], room - 1)
  {
    assert written + ([QUESTION] + CopyOf(left[1..], room - 1).bytes)
        == (written + [QUESTION]) + CopyOf(left[1..], room - 1).bytes;
  }

  lemma {:induction false} WholeStep(written: seq<Byte>, changed: bool, left: seq<Byte>, room: nat, n: nat)
    requires n == CharLength(left) && 0 < n <= room
    ensures After(written, changed, left, room) == After(written + left[..n], changed, left[n..], room - n)
  {
    assert written + (left[..n] + CopyOf(left[n..], room - n).bytes)
        == (written + left[..n]) + CopyOf(left[n..], room - n).bytes;
  }

  lemma {:induction false} StopStep(written: seq<Byte>, changed: bool, left: seq<Byte>, room: nat)
    requires left == [] || (if CharLength(left) == 0 then room == 0 else CharLength(left) > room)
    ensures After(written, changed, left, room) == Copy(written, changed || left != [])
  {
  }

  method CopyBytes(source: seq<Byte>, read: nat, target: array<Byte>, written: nat, length: nat)
    requires read + length <= |source| && written + length <= target.Length
    modifies target
    ensures target[..written + length] == old(target[..written]) + source[read..read + length]
    ensures forall k :: written + length <= k < target.Length ==> target[k] == old(target[k])
  {
    for i := 0 to length
      invariant target[..written + i] == old(target[..written]) + source[read..read + i]
      invariant forall k :: written + i <= k < target.Length ==> target[k] == old(target[k])
    {
      target[written + i] := source[read + i];
    }
  }

  /** The copier's branch for a byte that starts no character. */
  method CopyStray(source: seq<Byte>, read: nat, target: array<Byte>, written: nat, maximum: nat, changed: bool)
    requires CString(source) && read < |source| - 1 && written < maximum < target.Length
    requires CharLength(source[..|source| - 1][read..]) == 0
    modifies target
    ensures forall k :: written + 1 <= k < target.Length ==> target[k] == old(target[k])
    ensures var body := source[..|source| - 1];
            After(old(target[..written]), changed, body[read..], maximum - written)
            == After(target[..written + 1], true, body[read + 1..], maximum - written - 1)
  {
    StrayStep(target[..written], changed, source[..|source| - 1][read..], maximum - written);
    Drop(source, read, 1);
    PutQuestion(target, written);
  }

  /** The copier's branch for a whole character that fits. */
  method CopyWhole(source: seq<Byte>, read: nat, target: array<Byte>, written: nat, maximum: nat, changed: bool,
                   length: nat)
    requires CString(source) && read < |source| - 1 && maximum < target.Length && written + length <= maximum
    requires length == CharLength(source[..|source| - 1][read..]) > 0
    modifies target
    ensures read + length < |source|
    ensures forall k :: written + length <= k < target.Length ==> target[k] == old(target[k])
    ensures var body := source[..|source| - 1];
            After(old(target[..written]), changed, body[read..], maximum - written)
            == After(target[..written + length], changed, body[read + length..], maximum - written - length)
  {
    WholeStep(target[..written], changed, source[..|source| - 1][read..], maximum - written, length);
    Drop(source, read, length);
    CopyBytes(source, read, target, written, length);
  }

  /** One turn of the copier's loop; `stop` is its `break`. */
  method CopyCharacter(source: seq<Byte>, read: nat, target: array<Byte>, written: nat, maximum: nat, changed: bool)
    returns (nextRead: nat, nextWritten: nat, nextChanged: bool, stop: bool)
    requires CString(source) && read < |source| - 1 && written <= maximum < target.Length
    modifies target
    ensures nextRead < |source| && written <= nextWritten <= maximum && (!stop ==> nextRead > read)
    ensures forall k :: nextWritten <= k < target.Length ==> target[k] == old(target[k])
    ensures var body := source[..|source| - 1];
            After(old(target[..written]), changed, body[read..], maximum - written)
            == if stop then Copy(target[..nextWritten], nextChanged)
               else After(target[..nextWritten], nextChanged, body[nextRead..], maximum - nextWritten)
  {
    var valid, length := CharacterAt(source, read);
    if (if valid then length > maximum - written else written == maximum) {
      StopStep(target[..written], changed, source[..|source| - 1][read..], maximum - written);
      return read, written, true, true;
    }
    if !valid {
      CopyStray(source, read, target, written, maximum, changed);
      return read + 1, written + 1, true, false;
    }
    CopyWhole(source, read, target, written, maximum, changed, length);
    return read + length, written + length, changed, false;
  }

  lemma {:induction false} Drop(source: seq<Byte>, read: nat, n: nat)
    requires source != [] && read + n <= |source| - 1
    ensures var body := source[..|source| - 1];
            body[read..][n..] == body[read + n..] && body[read..][..n] == source[read..read + n]
  {
  }

  method PutQuestion(target: array<Byte>, written: nat)
    requires written < target.Length
    modifies target
    ensures target[..written + 1] == old(target[..written]) + [QUESTION]
    ensures forall k :: written + 1 <= k < target.Length ==> target[k] == old(target[k])
  {
    target[written] := QUESTION;
  }

  /** The copier's loop: everything but the final NUL. */
  method CopyLoop(source: seq<Byte>, target: array<Byte>, maximum: nat) returns (changed: bool, written: nat)
    requires CString(source) && maximum < target.Length
    modifies target
    ensures written <= maximum
    ensures CopyOf(source[..|source| - 1], maximum) == Copy(target[..written], changed)
    ensures forall k :: written <= k < target.Length ==> target[k] == old(target[k])
  {
    ghost var body := source[..|source| - 1];
    ghost var copy := CopyOf(body, maximum);
    var read, stop := 0, false;
    changed, written := false, 0;
    NothingYet(body, maximum);
    while !stop && source[read] != 0
      invariant 0 <= read < |source| && 0 <= written <= maximum
      invariant forall k :: written <= k < target.Length ==> target[k] == old(target[k])
      invariant copy == if stop then Copy(target[..written], changed)
                        else After(target[..written], changed, body[read..], maximum - written)
      decreases !stop, |source| - read
    {
      read, written, changed, stop := CopyCharacter(source, read, target, written, maximum, changed);
    }
    if !stop {
      assert read == |source| - 1 && body[read..] == [];
      StopStep(target[..written], changed, [], maximum - written);
    }
  }

  lemma {:induction false} NothingYet(body: seq<Byte>, maximum: nat)
    ensures body[0..] == body && CopyOf(body, maximum) == After([], false, body, maximum)
  {
    assert [] + CopyOf(body, maximum).bytes == CopyOf(body, maximum).bytes;
  }

  /**
   * The trace copier.  `source` ends at its NUL, so that every index used is one the
   * copier may read; the result is the copy followed by a NUL, inside `maximum` + 1 bytes.
   */
  method CopyUtf8(source: seq<Byte>, target: array<Byte>, maximum: nat) returns (changed: bool)
    requires CString(source) && maximum < target.Length
    modifies target
    ensures |CopyOf(source[..|source| - 1], maximum).bytes| <= maximum
    ensures changed == CopyOf(source[..|source| - 1], maximum).changed
    ensures var copy := CopyOf(source[..|source| - 1], maximum).bytes;
            && target[..|copy|] == copy && target[|copy|] == 0
            && forall k :: |copy| < k < target.Length ==> target[k] == old(target[k])
  {
    var written;
    changed, written := CopyLoop(source, target, maximum);
    target[written] := 0;
  }

  // -------------------------------------------------- what the copy means

  lemma {:induction false} ValidConcat(a: seq<Byte>, b: seq<Byte>)
    requires ValidUtf8(a) && ValidUtf8(b)
    ensures ValidUtf8(a + b)
    decreases |a|
  {
    if a == [] {
      assert a + b == b;
    } else {
      var n := CharLength(a);
      LengthIsLocal(a, b);
      assert (a + b)[n..] == a[n..] + b;
      ValidConcat(a[n..], b);
    }
  }

  lemma {:induction false} LengthIsLocal(a: seq<Byte>, b: seq<Byte>)
    requires CharLength(a) > 0
    ensures CharLength(a + b) == CharLength(a)
  {
  }

  lemma {:induction false} WholeCharacter(s: seq<Byte>, rest: seq<Byte>)
    requires CharLength(s) > 0 && ValidUtf8(rest)
    ensures var n := CharLength(s);
            && ValidUtf8(s[..n] + rest)
            && (s[..n] + rest == s <==> rest == s[n..])
  {
    var n := CharLength(s);
    var c := s[..n];
    LengthIsLocal(c, s[n..]);
    assert CharLength(c) == n && c[n..] == [] && s == c + s[n..];
    ValidConcat(c, rest);
    assert (c + rest)[n..] == rest;
  }

  lemma {:induction false} StrayByte(s: seq<Byte>, rest: seq<Byte>)
    requires s != [] && CharLength(s) == 0 && ValidUtf8(rest)
    ensures ValidUtf8([QUESTION] + rest) && [QUESTION] + rest != s
  {
    assert CharLength([QUESTION]) == 1 && [QUESTION][1..] == [];
    ValidConcat([QUESTION], rest);
    assert ([QUESTION] + rest)[0] == QUESTION && s[0] != QUESTION;
  }

  /** The copy fits and is valid UTF-8. */
  lemma {:induction false} CopyFitsAndIsValid(s: seq<Byte>, room: nat)
    ensures |CopyOf(s, room).bytes| <= room
    ensures ValidUtf8(CopyOf(s, room).bytes)
    decreases |s|
  {
    if s != [] {
      var n := CharLength(s);
      if n == 0 {
        if room > 0 {
          var rest := CopyOf(s[1..], room - 1).bytes;
          CopyFitsAndIsValid(s[1..], room - 1);
          StrayByte(s, rest);
          assert CopyOf(s, room).bytes == [QUESTION] + rest;
        }
      } else if n <= room {
        var rest := CopyOf(s[n..], room - n).bytes;
        CopyFitsAndIsValid(s[n..], room - n);
        WholeCharacter(s, rest);
        assert CopyOf(s, room).bytes == s[..n] + rest;
      }
    }
  }

  lemma {:induction false} StrayReports(s: seq<Byte>, room: nat)
    requires s != [] && CharLength(s) == 0 && room > 0
    ensures CopyOf(s, room).changed && CopyOf(s, room).bytes != s
  {
    CopyFitsAndIsValid(s[1..], room - 1);
    StrayByte(s, CopyOf(s[1..], room - 1).bytes);
  }

  lemma {:induction false} WholeReports(s: seq<Byte>, room: nat, n: nat)
    requires n == CharLength(s) && 0 < n <= room
    ensures CopyOf(s, room).changed == CopyOf(s[n..], room - n).changed
    ensures CopyOf(s, room).bytes == s[..n] + CopyOf(s[n..], room - n).bytes
    ensures CopyOf(s, room).bytes == s <==> CopyOf(s[n..], room - n).bytes == s[n..]
  {
    CopyFitsAndIsValid(s[n..], room - n);
    WholeCharacter(s, CopyOf(s[n..], room - n).bytes);
  }

  /** The copier reports a change exactly when the copy is not the whole input. */
  lemma {:induction false} CopyReportsChange(s: seq<Byte>, room: nat)
    ensures CopyOf(s, room).changed <==> CopyOf(s, room).bytes != s
    decreases |s|
  {
    if s != [] {
      var n := CharLength(s);
      if n == 0 && room > 0 {
        StrayReports(s, room);
      } else if 0 < n <= room {
        CopyReportsChange(s[n..], room - n);
        WholeReports(s, room, n);
      }
    }
  }

  /** A valid beginning of a valid text cuts it between characters. */
  lemma {:induction false} ValidBeginning(s: seq<Byte>, k: nat)
    requires CharLength(s) > 0 && 0 < k <= |s| && ValidUtf8(s[..k])
    ensures var n := CharLength(s);
            n <= k && s[..k][n..] == s[n..][..k - n] && ValidUtf8(s[n..][..k - n])
  {
    LengthIsLocal(s[..k], s[k..]);
    assert s[..k] + s[k..] == s;
    assert s[..k][CharLength(s)..] == s[CharLength(s)..][..k - CharLength(s)];
  }

  /** On valid input the copy is the longest prefix of whole characters that fits. */
  lemma {:induction false} CopyIsLongestPrefix(s: seq<Byte>, room: nat, k: nat)
    requires ValidUtf8(s)
    ensures CopyOf(s, room).bytes <= s
    ensures k <= |s| && k <= room && ValidUtf8(s[..k]) ==> k <= |CopyOf(s, room).bytes|
    decreases |s|
  {
    if s != [] {
      var n := CharLength(s);
      var prefixed := 0 < k <= |s| && k <= room && ValidUtf8(s[..k]);
      if prefixed { ValidBeginning(s, k); }
      if n <= room {
        CopyIsLongestPrefix(s[n..], room - n, if prefixed then k - n else 0);
        PrefixGrows(s, room, n);
      }
    }
  }

  lemma {:induction false} PrefixGrows(s: seq<Byte>, room: nat, n: nat)
    requires n == CharLength(s) && 0 < n <= room && CopyOf(s[n..], room - n).bytes <= s[n..]
    ensures CopyOf(s, room).bytes <= s
    ensures |CopyOf(s, room).bytes| == n + |CopyOf(s[n..], room - n).bytes|
  {
    WholeReports(s, room, n);
    assert s == s[..n] + s[n..];
  }

  /** Given room, the copier leaves a text alone exactly when the validator accepts it. */
  lemma {:induction false} CheckersAgree(s: seq<Byte>, room: nat)
    requires room >= |s|
    ensures !CopyOf(s, room).changed <==> ValidUtf8(s)
  {
    CopyFitsAndIsValid(s, room);
    CopyReportsChange(s, room);
    if ValidUtf8(s) {
      assert s[..|s|] == s;
      CopyIsLongestPrefix(s, room, |s|);
    }
  }
}
