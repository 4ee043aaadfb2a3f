// The host's bounded line reader, over a byte stream that may end in an error.

module LineReader {
  import opened Common

  const LF: Byte := 0x0A
  const CR: Byte := 0x0D

  /** An input stream: its bytes, the read position, and whether the end is a read error. */
  class InputStream {
    const data: seq<Byte>
    const failsAtEnd: bool
    var position: nat

    ghost predicate Valid()
      reads this
    {
      position <= |data|
    }

    function Unread(): seq<Byte>
      reads this
      requires Valid()
    {
      data[position..]
    }

    constructor (data: seq<Byte>, failsAtEnd: bool)
      ensures Valid() && Unread() == data && this.failsAtEnd == failsAtEnd && this.data == data
    {
      this.data, this.failsAtEnd, position := data, failsAtEnd, 0;
    }

    /** `get()`: the next byte, or -1 at the end. */
    method Get() returns (next: int)
      requires Valid()
      modifies this
      ensures Valid()
      ensures old(Unread()) == [] ==> next == -1 && Unread() == []
      ensures old(Unread()) != [] ==> next == old(Unread())[0] && Unread() == old(Unread())[1..]
    {
      if position == |data| {
        return -1;
      }
      next := data[position];
      position := position + 1;
    }
  }

  datatype LineResult = Line(line: seq<Byte>) | TooLarge | EndOfFile | IoError

  /** Position of the first LF, or the length. */
  function LineEnd(s: seq<Byte>): (n: nat)
    ensures n <= |s|
    ensures forall i :: 0 <= i < n ==> s[i] != LF
    ensures n < |s| ==> s[n] == LF
  {
    if s == [] || s[0] == LF then 0 else 1 + LineEnd(s[1..])
  }

  function StripCr(s: seq<Byte>): seq<Byte> {
    if s != [] && s[|s| - 1] == CR then s[..|s| - 1] else s
  }

  /** The specification: cut at LF or end, strip one CR, accept iff the payload fits. */
  function FirstLine(s: seq<Byte>, failsAtEnd: bool, maximum: nat): LineResult {
    var n := LineEnd(s);
    if n == |s| && failsAtEnd then IoError
    else if s == [] then EndOfFile
    else if |StripCr(s[..n])| <= maximum then Line(StripCr(s[..n]))
    else TooLarge
  }

  /** What is left: everything after the LF, when there is one. */
  function AfterLine(s: seq<Byte>): (t: seq<Byte>)
    ensures |t| <= |s|
    ensures s != [] ==> |t| < |s|
  {
    var n := LineEnd(s);
    if n == |s| then [] else s[n + 1..]
  }

  lemma {:induction false} LineEndIs(s: seq<Byte>, n: nat)
    requires n <= |s| && (forall i :: 0 <= i < n ==> s[i] != LF) && (n < |s| ==> s[n] == LF)
    ensures LineEnd(s) == n
  {
    if n > 0 {
      LineEndIs(s[1..], n - 1);
    }
  }

  /** The reader.  Its buffer never holds more than `maximum` + 1 bytes. */
  method ReadLine(input: InputStream, maximum: nat) returns (result: LineResult)
    requires input.Valid()
    modifies input
    ensures input.Valid()
    ensures result == FirstLine(old(input.Unread()), input.failsAtEnd, maximum)
    ensures input.Unread() == AfterLine(old(input.Unread()))
  {
    ghost var all := input.Unread();
    ghost var taken: nat := 0;
    var buffer: seq<Byte> := [];
    var receivedAnything, exceededLimit := false, false;
    while true
      invariant input.Valid() && taken <= |all| && input.Unread() == all[taken..]
      invariant forall i :: 0 <= i < taken ==> all[i] != LF
      invariant receivedAnything <==> taken > 0
      invariant |buffer| <= maximum + 1
      invariant if exceededLimit then taken > maximum + 1 else buffer == all[..taken]
      decreases |all| - taken
    {
      var next := input.Get();
      if next == -1 {
        LineEndIs(all, taken);
        if input.failsAtEnd {
          return IoError;
        }
        if !receivedAnything {
          return EndOfFile;
        }
        break;
      }
      receivedAnything := true;
      if next == LF {
        LineEndIs(all, taken);
        break;
      }
      if !exceededLimit {
        if |buffer| <= maximum {
          buffer := buffer + [next];
        } else {
          exceededLimit := true;
          buffer := [];
        }
      }
      taken := taken + 1;
    }
    assert LineEnd(all) == taken;
    if exceededLimit {
      return TooLarge;
    }
    if |buffer| > maximum {
      if |buffer| == maximum + 1 && buffer[|buffer| - 1] == CR {
        buffer := buffer[..|buffer| - 1];
      } else {
        return TooLarge;
      }
    } else if buffer != [] && buffer[|buffer| - 1] == CR {
      buffer := buffer[..|buffer| - 1];
    }
    return Line(buffer);
  }

  // --------------------------------------------------------- round trip

  /** Lines and their terminators on the wire. */
  datatype Framed = Framed(line: seq<Byte>, crlf: bool)

  predicate Frameable(line: seq<Byte>, maximum: nat) {
    && |line| <= maximum
    && (forall i :: 0 <= i < |line| ==> line[i] != LF)
    && (line != [] ==> line[|line| - 1] != CR)
  }

  function Terminator(crlf: bool): seq<Byte> {
    if crlf then [CR, LF] else [LF]
  }

  function Join(lines: seq<Framed>): seq<Byte> {
    if lines == [] then [] else lines[0].line + Terminator(lines[0].crlf) + Join(lines[1..])
  }

  /** Every line a caller gets before the end of the input. */
  function ReadAll(s: seq<Byte>, maximum: nat): seq<LineResult>
    decreases |s|
  {
    if s == [] then [] else [FirstLine(s, false, maximum)] + ReadAll(AfterLine(s), maximum)
  }

  lemma {:induction false} FirstOfJoined(line: seq<Byte>, crlf: bool, rest: seq<Byte>, maximum: nat)
    requires Frameable(line, maximum)
    ensures var s := line + Terminator(crlf) + rest;
            s != [] && FirstLine(s, false, maximum) == Line(line) && AfterLine(s) == rest
  {
    var s := line + Terminator(crlf) + rest;
    var raw := if crlf then line + [CR] else line;
    assert s == raw + [LF] + rest;
    LineEndIs(s, |raw|);
    assert s[..|raw|] == raw;
    assert StripCr(raw) == line;
    assert s[|raw| + 1..] == rest;
  }

  function Payloads(lines: seq<Framed>): seq<LineResult> {
    if lines == [] then [] else [Line(lines[0].line)] + Payloads(lines[1..])
  }

  /** Reading undoes joining: with LF or CRLF after each line, in any mixture. */
  lemma {:induction false} ReadingUndoesJoining(lines: seq<Framed>, maximum: nat)
    requires forall i :: 0 <= i < |lines| ==> Frameable(lines[i].line, maximum)
    ensures ReadAll(Join(lines), maximum) == Payloads(lines)
  {
    if lines != [] {
      FirstOfJoined(lines[0].line, lines[0].crlf, Join(lines[1..]), maximum);
      ReadingUndoesJoining(lines[1..], maximum);
    }
  }

  /** The limit is on the payload: a rejected line is consumed, and the next one is read normally. */
  lemma {:induction false} OversizedLineIsSkipped(line: seq<Byte>, crlf: bool, rest: seq<Byte>, maximum: nat)
    requires Frameable(line, |line|) && |line| > maximum
    ensures var s := line + Terminator(crlf) + rest;
            FirstLine(s, false, maximum) == TooLarge && AfterLine(s) == rest
  {
    FirstOfJoined(line, crlf, rest, |line|);
  }
}
