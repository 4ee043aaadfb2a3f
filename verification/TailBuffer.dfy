// The client's diagnostic tail: it keeps the last bytes of a stream, in chunks.

module TailBuffer {
  import opened Common

  function Join(chunks: seq<seq<Byte>>): seq<Byte> {
    if chunks == [] then [] else chunks[0] + Join(chunks[1..])
  }

  function LastBytes(all: seq<Byte>, capacity: nat): (t: seq<Byte>)
    ensures |t| <= capacity
  {
    if |all| > capacity then all[|all| - capacity..] else all
  }

  lemma {:induction false} JoinSnoc(chunks: seq<seq<Byte>>, chunk: seq<Byte>)
    ensures Join(chunks + [chunk]) == Join(chunks) + chunk
  {
    if chunks == [] {
      assert chunks + [chunk] == [chunk] && [chunk][1..] == [];
    } else {
      JoinSnoc(chunks[1..], chunk);
      assert (chunks + [chunk])[1..] == chunks[1..] + [chunk];
    }
  }

  function Suffix(s: seq<Byte>, n: nat): (t: seq<Byte>)
    requires n <= |s|
    ensures |t| == n
  {
    s[|s| - n..]
  }

  lemma {:induction false} SuffixDrops(s: seq<Byte>, n: nat, cut: nat)
    requires cut <= n <= |s|
    ensures Suffix(s, n)[cut..] == Suffix(s, n - cut)
  {
  }

  /** Cutting bytes off the first chunk cuts them off the whole. */
  lemma {:induction false} CutFirst(chunks: seq<seq<Byte>>, n: nat)
    requires chunks != [] && n <= |chunks[0]|
    ensures Join([chunks[0][n..]] + chunks[1..]) == Join(chunks)[n..]
    ensures n == |chunks[0]| ==> Join(chunks[1..]) == Join(chunks)[n..]
  {
    var cut := [chunks[0][n..]] + chunks[1..];
    assert cut[1..] == chunks[1..];
  }

  lemma {:induction false} LastOfLast(s: seq<Byte>, more: seq<Byte>, capacity: nat)
    ensures LastBytes(LastBytes(s, capacity) + more, capacity) == LastBytes(s + more, capacity)
  {
  }

  /** A suffix that fits, and is the whole or exactly full, is what the bound keeps. */
  lemma {:induction false} SuffixIsLast(all: seq<Byte>, size: nat, capacity: nat)
    requires size <= |all| && size <= capacity && (size >= capacity || size == |all|)
    ensures Suffix(all, size) == LastBytes(all, capacity)
  {
  }

  class Tail {
    const capacity: nat
    var chunks: seq<seq<Byte>>
    var size: nat
    ghost var stream: seq<Byte>

    /** The chunks together are the last bytes of everything appended. */
    ghost predicate Valid()
      reads this
    {
      size == |Join(chunks)| && Join(chunks) == LastBytes(stream, capacity)
    }

    constructor (capacity: nat)
      ensures Valid() && this.capacity == capacity && stream == []
    {
      this.capacity, chunks, size, stream := capacity, [], 0, [];
    }

    method Append(chunk: seq<Byte>)
      requires Valid()
      modifies this
      ensures Valid() && stream == old(stream) + chunk
      ensures Join(chunks) == LastBytes(old(stream) + chunk, capacity)
      ensures size == (if |stream| <= capacity then |stream| else capacity) && Join(chunks) == stream[|stream| - size..]
    {
      if chunk == [] {
        assert stream + [] == stream;
        return;
      }
      JoinSnoc(chunks, chunk);
      ghost var all := Join(chunks) + chunk;
      chunks := chunks + [chunk];
      size := size + |chunk|;
      stream := stream + chunk;
      while size > capacity && chunks != []
        invariant stream == old(stream) + chunk
        invariant size <= |all| && Join(chunks) == Suffix(all, size)
        invariant size >= capacity || size == |all|
        decreases |chunks|, size
      {
        var overflow := size - capacity;
        var first := chunks[0];
        if |first| <= overflow {
          CutFirst(chunks, |first|);
          SuffixDrops(all, size, |first|);
          chunks := chunks[1..];
          size := size - |first|;
        } else {
          CutFirst(chunks, overflow);
          SuffixDrops(all, size, overflow);
          chunks := [first[overflow..]] + chunks[1..];
          size := size - overflow;
        }
      }
      SuffixIsLast(all, size, capacity);
      LastOfLast(old(stream), chunk, capacity);
    }

    method Bytes() returns (value: seq<Byte>)
      requires Valid()
      ensures value == LastBytes(stream, capacity)
    {
      value := Join(chunks);
    }
  }
}
