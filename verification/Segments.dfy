/** Cutting the payload of a write out of the chunked data buffer of the I/O request. */
module Segments {
  import opened Bytes
  import opened Packet

  const CHUNK := 131072

  /** A whole number of blocks. */
  predicate Whole(x: int) { x % LB_SIZE == 0 }

  lemma WholeArith(x: int, y: int)
    requires Whole(x) && Whole(y)
    ensures Whole(x + y) && Whole(x - y) && (x > 0 ==> x >= LB_SIZE)
  {
    var a, b := x / LB_SIZE, y / LB_SIZE;
    assert x == a * LB_SIZE && y == b * LB_SIZE;
    hide Whole;
    WholeBlocks(a + b);
    WholeBlocks(a - b);
  }

  lemma WholeBlocks(n: int)
    ensures Whole(n * LB_SIZE)
  {
  }

  /** A piece of one chunk: an `iovec`. */
  datatype Seg = Seg(chunk: nat, off: nat, len: nat)

  /** All chunks but the last are full, and all hold whole blocks. */
  ghost predicate Layout(chunks: seq<seq<Byte>>) {
    && (forall i :: 0 <= i < |chunks| ==> |chunks[i]| <= CHUNK && Whole(|chunks[i]|))
    && (forall i :: 0 <= i < |chunks| - 1 ==> |chunks[i]| == CHUNK)
  }

  /** The data the chunks hold together. */
  function Flat(chunks: seq<seq<Byte>>): seq<Byte> {
    if chunks == [] then [] else chunks[0] + Flat(chunks[1..])
  }

  ghost predicate SegOk(chunks: seq<seq<Byte>>, s: Seg) {
    s.chunk < |chunks| && s.off + s.len <= |chunks[s.chunk]| && s.len > 0
  }

  function SegData(chunks: seq<seq<Byte>>, s: Seg): seq<Byte>
    requires SegOk(chunks, s)
  {
    chunks[s.chunk][s.off..s.off + s.len]
  }

  ghost predicate SegsOk(chunks: seq<seq<Byte>>, segs: seq<Seg>) {
    forall i :: 0 <= i < |segs| ==> SegOk(chunks, segs[i])
  }

  /** The bytes sent, segment after segment. */
  ghost function Sent(chunks: seq<seq<Byte>>, segs: seq<Seg>): seq<Byte>
    requires SegsOk(chunks, segs)
  {
    if segs == [] then [] else Sent(chunks, segs[..|segs| - 1]) + SegData(chunks, segs[|segs| - 1])
  }

  /** Chunk `i` is where it should be in the whole. */
  lemma {:induction false} FlatAt(chunks: seq<seq<Byte>>, i: nat)
    requires Layout(chunks) && i < |chunks|
    ensures i * CHUNK + |chunks[i]| <= |Flat(chunks)|
    ensures Flat(chunks)[i * CHUNK..i * CHUNK + |chunks[i]|] == chunks[i]
    ensures i == |chunks| - 1 ==> |Flat(chunks)| == i * CHUNK + |chunks[i]|
    decreases i
  {
    var rest := chunks[1..];
    assert Layout(rest);
    if i > 0 {
      FlatAt(rest, i - 1);
      assert |chunks[0]| == CHUNK;
      assert Flat(chunks)[i * CHUNK..i * CHUNK + |chunks[i]|]
          == Flat(rest)[(i - 1) * CHUNK..(i - 1) * CHUNK + |chunks[i]|];
    } else if |chunks| == 1 {
      assert rest == [];
    }
  }

  /** `_get_data_buffer_loc`: the piece of at most `len` bytes that starts at `off`. */
  function DataLoc(chunks: seq<seq<Byte>>, off: nat, len: nat): Seg
    requires off / CHUNK < |chunks|
    requires off <= off / CHUNK * CHUNK + |chunks[off / CHUNK]|
  {
    var i := off / CHUNK;
    var next := i * CHUNK + |chunks[i]|;
    Seg(i, off - i * CHUNK, if next >= off + len then len else next - off)
  }

  lemma SliceOfSlice(d: seq<Byte>, a: nat, b: nat, x: nat, y: nat)
    requires a <= b <= |d| && x <= y <= b - a
    ensures d[a..b][x..y] == d[a + x..a + y]
  {
    forall k | 0 <= k < y - x ensures d[a..b][x..y][k] == d[a + x..a + y][k] {
      assert d[a..b][x + k] == d[a + x + k];
    }
  }

  lemma LocInside(chunks: seq<seq<Byte>>, off: nat)
    requires Layout(chunks) && off < |Flat(chunks)|
    ensures off / CHUNK < |chunks| && off < off / CHUNK * CHUNK + |chunks[off / CHUNK]|
  {
    FlatEnd(chunks);
    var i := off / CHUNK;
    if i >= |chunks| {
      assert false;
    }
    FlatAt(chunks, i);
  }

  lemma LocAligned(off: nat, size: nat)
    requires Whole(off) && Whole(size)
    ensures Whole(off / CHUNK * CHUNK + size - off)
  {
    assert off / CHUNK * CHUNK == off / CHUNK * 32 * LB_SIZE;
    WholeBlocks(off / CHUNK * 32);
    WholeArith(off / CHUNK * CHUNK, size);
    WholeArith(off / CHUNK * CHUNK + size, off);
  }

  /** Inside the data there is such a piece, it is not empty, it holds the right bytes, and with a
      block-aligned offset it consists of whole blocks. */
  lemma LocFacts(chunks: seq<seq<Byte>>, off: nat, len: nat)
    requires Layout(chunks) && len > 0 && off + len <= |Flat(chunks)|
    ensures off / CHUNK < |chunks| && off < off / CHUNK * CHUNK + |chunks[off / CHUNK]|
    ensures var s := DataLoc(chunks, off, len);
            && SegOk(chunks, s) && s.len <= len
            && SegData(chunks, s) == Flat(chunks)[off..off + s.len]
            && (Whole(off) && Whole(len) ==> Whole(s.len))
  {
    hide Flat;
    LocInside(chunks, off);
    var i := off / CHUNK;
    FlatAt(chunks, i);
    var s := DataLoc(chunks, off, len);
    SliceOfSlice(Flat(chunks), i * CHUNK, i * CHUNK + |chunks[i]|, s.off, s.off + s.len);
    if Whole(off) && Whole(len) { LocAligned(off, |chunks[i]|); }
  }

  lemma FlatEnd(chunks: seq<seq<Byte>>)
    requires Layout(chunks)
    ensures |Flat(chunks)| <= |chunks| * CHUNK
    ensures chunks != [] ==> |Flat(chunks)| == (|chunks| - 1) * CHUNK + |chunks[|chunks| - 1]|
  {
    if chunks != [] {
      FlatAt(chunks, |chunks| - 1);
    }
  }

  /** The segment loop of `init_DNUDReq_Write`: the segments, sent in order, are exactly the `n`
      blocks of the request; none is empty, all hold whole blocks, and there are at most `n`. */
  method InitSegments(chunks: seq<seq<Byte>>, offset: nat, n: nat) returns (segs: seq<Seg>)
    requires Layout(chunks) && Whole(offset) && offset + n * LB_SIZE <= |Flat(chunks)|
    ensures SegsOk(chunks, segs) && Sent(chunks, segs) == Flat(chunks)[offset..offset + n * LB_SIZE]
    ensures |segs| <= n && forall i :: 0 <= i < |segs| ==> Whole(segs[i].len)
  {
    hide Flat, Layout, DataLoc, SegOk, SegData, Whole, Sent, SegsOk;
    segs := [];
    NoneYet(chunks, offset);
    WholeBlocks(n);
    var dataOff, dnlen := offset, n * LB_SIZE;
    while dnlen > 0
      invariant dataOff + dnlen == offset + n * LB_SIZE && dnlen >= 0 && dataOff >= offset
      invariant Whole(dataOff) && Whole(dnlen)
      invariant SegsOk(chunks, segs) && Sent(chunks, segs) == Flat(chunks)[offset..dataOff]
      invariant |segs| * LB_SIZE <= dataOff - offset
      invariant forall i :: 0 <= i < |segs| ==> Whole(segs[i].len)
      decreases dnlen
    {
      LocFacts(chunks, dataOff, dnlen);
      var s := DataLoc(chunks, dataOff, dnlen);
      SegSize(chunks, s);
      WholeArith(dataOff, s.len);
      WholeArith(dnlen, s.len);
      SentSnoc(chunks, segs, s);
      SliceJoin(Flat(chunks), offset, dataOff, dataOff + s.len);
      segs := segs + [s];
      dataOff := dataOff + s.len;
      dnlen := dnlen - s.len;
    }
  }

  lemma NoneYet(chunks: seq<seq<Byte>>, offset: nat)
    requires offset <= |Flat(chunks)|
    ensures SegsOk(chunks, []) && Sent(chunks, []) == Flat(chunks)[offset..offset]
  {
  }

  lemma SliceJoin(d: seq<Byte>, a: nat, b: nat, c: nat)
    requires a <= b <= c <= |d|
    ensures d[a..b] + d[b..c] == d[a..c]
  {
  }

  lemma SegSize(chunks: seq<seq<Byte>>, s: Seg)
    requires SegOk(chunks, s) && Whole(s.len)
    ensures s.len >= LB_SIZE
  {
  }

  lemma SentSnoc(chunks: seq<seq<Byte>>, segs: seq<Seg>, s: Seg)
    requires SegsOk(chunks, segs) && SegOk(chunks, s)
    ensures SegsOk(chunks, segs + [s]) && Sent(chunks, segs + [s]) == Sent(chunks, segs) + SegData(chunks, s)
  {
    assert (segs + [s])[..|segs|] == segs;
  }
}
