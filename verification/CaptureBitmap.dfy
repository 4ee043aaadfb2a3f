// One bit per expected point, in 64-bit words per range, and the set they stand for.

module CaptureBitmap {
  import opened CaptureConfig

  type Words = seq<bv64>

  function Mask(k: nat): bv64
    requires k < 64
  {
    1 << k
  }

  function WordCount(r: PointRange): nat
    requires r.start <= r.stop
  {
    (Size(r) + 63) / 64
  }

  predicate BitSet(words: Words, offset: nat)
    requires offset / 64 < |words|
  {
    words[offset / 64] & Mask(offset % 64) != 0
  }

  function WithBit(words: Words, offset: nat): (more: Words)
    requires offset / 64 < |words|
    ensures |more| == |words|
  {
    words[offset / 64 := words[offset / 64] | Mask(offset % 64)]
  }

  lemma {:induction false} MaskIsOneBit(w: bv64, i: nat, j: nat)
    requires i < 64 && j < 64
    ensures (w | Mask(i)) & Mask(j) != 0 <==> i == j || w & Mask(j) != 0
    ensures (0 as bv64) & Mask(i) == 0
  {
  }

  lemma {:induction false} SettingOneBit(words: Words, offset: nat, other: nat)
    requires offset / 64 < |words| && other / 64 < |words|
    ensures BitSet(WithBit(words, offset), other) <==> other == offset || BitSet(words, other)
  {
    var w, i, o, j := offset / 64, offset % 64, other / 64, other % 64;
    assert offset == 64 * w + i && other == 64 * o + j;
    BitInWord(words, w, i, o, j);
  }

  lemma {:induction false} BitInWord(words: Words, w: nat, i: nat, o: nat, j: nat)
    requires w < |words| && o < |words| && i < 64 && j < 64
    ensures words[w := words[w] | Mask(i)][o] & Mask(j) != 0 <==> (w == o && i == j) || words[o] & Mask(j) != 0
  {
    MaskIsOneBit(words[w], i, j);
  }

  /** The bitmaps have one word for each 64 points of their range, rounded up. */
  predicate Shaped(ranges: seq<PointRange>, bits: seq<Words>) {
    && WellOrdered(ranges) && |bits| == |ranges|
    && forall r :: 0 <= r < |ranges| ==> |bits[r]| == WordCount(ranges[r])
  }

  lemma {:induction false} InWords(ranges: seq<PointRange>, bits: seq<Words>, r: nat, index: nat)
    requires Shaped(ranges, bits) && r < |ranges| && ranges[r].start <= index <= ranges[r].stop
    ensures (index - ranges[r].start) / 64 < |bits[r]|
  {
  }

  predicate Marked(ranges: seq<PointRange>, bits: seq<Words>, r: nat, index: nat)
    requires Shaped(ranges, bits)
  {
    r < |ranges| && ranges[r].start <= index <= ranges[r].stop &&
    (InWords(ranges, bits, r, index); BitSet(bits[r], index - ranges[r].start))
  }

  /** The points whose bit is set. */
  function SeenBits(ranges: seq<PointRange>, bits: seq<Words>): set<(string, nat)>
    requires Shaped(ranges, bits)
  {
    set r, i | 0 <= r < |ranges| && ranges[r].start <= i <= ranges[r].stop && Marked(ranges, bits, r, i)
      :: (ranges[r].kind, i)
  }

  /** With disjoint ranges, the bit of the range that holds a point says whether it was seen. */
  lemma {:induction false} BitTells(ranges: seq<PointRange>, bits: seq<Words>, r: nat, kind: string, index: nat)
    requires Shaped(ranges, bits) && Disjoint(ranges) && r < |ranges| && InRange(ranges[r], kind, index)
    ensures Marked(ranges, bits, r, index) <==> (kind, index) in SeenBits(ranges, bits)
  {
    if (kind, index) in SeenBits(ranges, bits) {
      var q, i :| 0 <= q < |ranges| && ranges[q].start <= i <= ranges[q].stop && Marked(ranges, bits, q, i)
                  && (ranges[q].kind, i) == (kind, index);
      assert InRange(ranges[q], kind, index);
      assert q == r;
    }
  }

  function Mark(ranges: seq<PointRange>, bits: seq<Words>, r: nat, index: nat): (more: seq<Words>)
    requires Shaped(ranges, bits) && r < |ranges| && ranges[r].start <= index <= ranges[r].stop
    ensures Shaped(ranges, more)
  {
    InWords(ranges, bits, r, index);
    bits[r := WithBit(bits[r], index - ranges[r].start)]
  }

  lemma {:induction false} SettingMarksHere(ranges: seq<PointRange>, bits: seq<Words>, r: nat, index: nat, i: nat)
    requires Shaped(ranges, bits) && r < |ranges| && ranges[r].start <= index <= ranges[r].stop
    requires ranges[r].start <= i <= ranges[r].stop
    ensures Marked(ranges, Mark(ranges, bits, r, index), r, i) <==> Marked(ranges, bits, r, i) || i == index
  {
    InWords(ranges, bits, r, i);
    InWords(ranges, bits, r, index);
    SettingOneBit(bits[r], index - ranges[r].start, i - ranges[r].start);
  }

  lemma {:induction false} SettingMarks(ranges: seq<PointRange>, bits: seq<Words>, r: nat, index: nat, q: nat, i: nat)
    requires Shaped(ranges, bits) && r < |ranges| && ranges[r].start <= index <= ranges[r].stop
    ensures Marked(ranges, Mark(ranges, bits, r, index), q, i) <==>
            Marked(ranges, bits, q, i) || (q == r && i == index)
  {
    if q == r && ranges[r].start <= i <= ranges[r].stop {
      SettingMarksHere(ranges, bits, r, index, i);
    }
  }

  lemma {:induction false} PointIsMarked(ranges: seq<PointRange>, bits: seq<Words>, p: (string, nat)) returns (r: nat)
    requires Shaped(ranges, bits) && p in SeenBits(ranges, bits)
    ensures r < |ranges| && ranges[r].kind == p.0 && Marked(ranges, bits, r, p.1)
  {
    var q, i :| 0 <= q < |ranges| && ranges[q].start <= i <= ranges[q].stop && Marked(ranges, bits, q, i)
                && p == (ranges[q].kind, i);
    r := q;
  }

  /** Setting a bit adds its point and no other. */
  lemma {:induction false} SettingAddsPoint(ranges: seq<PointRange>, bits: seq<Words>, r: nat, kind: string, index: nat)
    requires Shaped(ranges, bits) && r < |ranges| && InRange(ranges[r], kind, index)
    ensures SeenBits(ranges, Mark(ranges, bits, r, index)) == SeenBits(ranges, bits) + {(kind, index)}
  {
    var more := Mark(ranges, bits, r, index);
    SettingMarks(ranges, bits, r, index, r, index);
    forall p | p in SeenBits(ranges, more) ensures p in SeenBits(ranges, bits) + {(kind, index)} {
      var q := PointIsMarked(ranges, more, p);
      SettingMarks(ranges, bits, r, index, q, p.1);
    }
    forall p | p in SeenBits(ranges, bits) ensures p in SeenBits(ranges, more) {
      var q := PointIsMarked(ranges, bits, p);
      SettingMarks(ranges, bits, r, index, q, p.1);
    }
    assert (ranges[r].kind, index) in SeenBits(ranges, more);
  }

  /** Fresh words hold no point. */
  lemma {:induction false} ZeroWordsAreEmpty(ranges: seq<PointRange>, bits: seq<Words>)
    requires Shaped(ranges, bits)
    requires forall r, w :: 0 <= r < |bits| && 0 <= w < |bits[r]| ==> bits[r][w] == 0
    ensures SeenBits(ranges, bits) == {}
  {
    forall r: nat, i: nat ensures !Marked(ranges, bits, r, i) {
      if r < |ranges| && ranges[r].start <= i <= ranges[r].stop {
        InWords(ranges, bits, r, i);
        MaskIsOneBit(0, (i - ranges[r].start) % 64, 0);
      }
    }
  }
}
