/** A write from end to end: the segments cut from the data buffer, the fingerprints of their blocks
    and the packet that carries them. */
module WritePacket {
  import opened Bytes
  import opened Packet
  import opened Segments
  import opened DnSimulator
  import opened Fingerprint

  /** Block `k` of the data. */
  function BlockAt(d: seq<Byte>, k: nat): seq<Byte>
    requires LB_SIZE * (k + 1) <= |d|
  {
    d[LB_SIZE * k..LB_SIZE * (k + 1)]
  }

  lemma {:induction false} BlocksAt(d: seq<Byte>)
    ensures LB_SIZE * |BlocksOfSeg(d)| <= |d| < LB_SIZE * (|BlocksOfSeg(d)| + 1)
    ensures forall k :: 0 <= k < |BlocksOfSeg(d)| ==> BlocksOfSeg(d)[k] == BlockAt(d, k)
    decreases |d|
  {
    if |d| >= LB_SIZE {
      var rest := d[LB_SIZE..];
      BlocksAt(rest);
      assert BlocksOfSeg(d) == [d[..LB_SIZE]] + BlocksOfSeg(rest);
      forall k | 0 <= k < |BlocksOfSeg(d)| ensures BlocksOfSeg(d)[k] == BlockAt(d, k) {
        if k > 0 {
          assert BlocksOfSeg(d)[k] == BlockAt(rest, k - 1);
          SliceOfSlice(d, LB_SIZE, |d|, LB_SIZE * (k - 1), LB_SIZE * k);
          assert rest == d[LB_SIZE..|d|];
        }
      }
    }
  }

  lemma {:induction false} BlocksJoin(a: seq<Byte>, b: seq<Byte>)
    requires Whole(|a|)
    ensures BlocksOfSeg(a + b) == BlocksOfSeg(a) + BlocksOfSeg(b)
    decreases |a|
  {
    if a == [] {
      assert a + b == b;
    } else {
      var rest := a[LB_SIZE..];
      BlocksJoin(rest, b);
      assert (a + b)[..LB_SIZE] == a[..LB_SIZE] && (a + b)[LB_SIZE..] == rest + b;
    }
  }

  lemma {:induction false} BlocksOfSnoc(segs: seq<seq<Byte>>, d: seq<Byte>)
    ensures BlocksOf(segs + [d]) == BlocksOf(segs) + BlocksOfSeg(d)
  {
    hide BlocksOfSeg;
    if segs == [] {
      assert segs + [d] == [d] && [d][1..] == [];
    } else {
      BlocksOfSnoc(segs[1..], d);
      assert (segs + [d])[0] == segs[0] && (segs + [d])[1..] == segs[1..] + [d];
    }
  }

  ghost predicate WholeSegs(segs: seq<Seg>) { forall i :: 0 <= i < |segs| ==> Whole(segs[i].len) }

  /** Block by block, the segments are the bytes sent. */
  lemma {:induction false} BlocksSent(chunks: seq<seq<Byte>>, segs: seq<Seg>)
    requires SegsOk(chunks, segs) && WholeSegs(segs)
    ensures BlocksOf(SegDatas(chunks, segs)) == BlocksOfSeg(Sent(chunks, segs)) && AllWhole(SegDatas(chunks, segs))
    ensures Whole(|Sent(chunks, segs)|)
    decreases |segs|
  {
    hide BlocksOfSeg, BlocksOf, Whole;
    if segs == [] {
      NoneSent();
    } else {
      var front, s := segs[..|segs| - 1], segs[|segs| - 1];
      BlocksSent(chunks, front);
      assert SegOk(chunks, s);
      BlocksOfSnoc(SegDatas(chunks, front), SegData(chunks, s));
      BlocksJoin(Sent(chunks, front), SegData(chunks, s));
      WholeArith(|Sent(chunks, front)|, s.len);
    }
  }

  lemma NoneSent()
    ensures BlocksOf([]) == BlocksOfSeg([]) == [] && Whole(0)
  {
  }

  lemma SliceBlock(d: seq<Byte>, lb: nat, n: nat, k: nat)
    requires LB_SIZE * (lb + n) <= |d| && k < n
    ensures BlockAt(d[LB_SIZE * lb..LB_SIZE * (lb + n)], k) == BlockAt(d, lb + k)
  {
    SliceOfSlice(d, LB_SIZE * lb, LB_SIZE * (lb + n), LB_SIZE * k, LB_SIZE * (k + 1));
  }

  /** The blocks of a slice are the slice of the blocks. */
  lemma BlocksSlice(d: seq<Byte>, lb: nat, n: nat)
    requires LB_SIZE * (lb + n) <= |d|
    ensures lb + n <= |BlocksOfSeg(d)|
    ensures BlocksOfSeg(d[LB_SIZE * lb..LB_SIZE * (lb + n)]) == BlocksOfSeg(d)[lb..lb + n]
  {
    hide BlocksOfSeg, BlockAt;
    var part := d[LB_SIZE * lb..LB_SIZE * (lb + n)];
    BlocksAt(d);
    BlocksAt(part);
    forall k | 0 <= k < n ensures BlocksOfSeg(part)[k] == BlocksOfSeg(d)[lb..lb + n][k] {
      SliceBlock(d, lb, n, k);
    }
  }

  /** What the fingerprint loops see of the segments of a write is its blocks of the whole data. */
  lemma SegmentsAreBlocks(chunks: seq<seq<Byte>>, segs: seq<Seg>, lb: nat, n: nat)
    requires SegsOk(chunks, segs) && WholeSegs(segs) && LB_SIZE * (lb + n) <= |Flat(chunks)|
    requires Sent(chunks, segs) == Flat(chunks)[LB_SIZE * lb..LB_SIZE * (lb + n)]
    ensures AllWhole(SegDatas(chunks, segs)) && lb + n <= |BlocksOfSeg(Flat(chunks))|
    ensures BlocksOf(SegDatas(chunks, segs)) == BlocksOfSeg(Flat(chunks))[lb..lb + n]
  {
    hide BlocksOfSeg, BlocksOf, SegDatas, Sent, Flat, SegsOk, WholeSegs;
    BlocksSent(chunks, segs);
    BlocksSlice(Flat(chunks), lb, n);
  }

  /** Fingerprint `k` in a packet for `n` blocks. */
  function FpAt(p: seq<Byte>, n: nat, k: nat): (fp: seq<Byte>)
    requires HEADER_LEN + 8 * n + FP_LENGTH * (k + 1) <= |p|
    ensures |fp| == FP_LENGTH
  {
    p[HEADER_LEN + 8 * n + FP_LENGTH * k..HEADER_LEN + 8 * n + FP_LENGTH * (k + 1)]
  }

  lemma PacketFp(r: UdReq, reserved: seq<Byte>, fps: seq<Byte>, k: nat)
    requires |reserved| == 3 && |fps| == FP_LENGTH * |r.hbids| && k < |r.hbids|
    ensures HEADER_LEN + 8 * |r.hbids| + FP_LENGTH * (k + 1) <= |PacketBytes(r, reserved, fps)|
    ensures FpAt(PacketBytes(r, reserved, fps), |r.hbids|, k) == Slot(fps, k)
  {
    hide Header, Words;
    var pre := Header(r, reserved) + Words(r.hbids);
    var p := PacketBytes(r, reserved, fps);
    assert p[|pre|..|pre| + |fps|] == fps;
    SliceOfSlice(p, |pre|, |pre| + |fps|, FP_LENGTH * k, FP_LENGTH * (k + 1));
  }

  /** The fingerprints of `n` blocks of the data: digests padded with zeros, in order. */
  function DigestBytes(data: seq<Byte>, lb: nat, n: nat, hash: seq<Byte> -> seq<Byte>): (s: seq<Byte>)
    requires LB_SIZE * (lb + n) <= |data| && forall b :: |hash(b)| <= FP_LENGTH
    ensures |s| == FP_LENGTH * n
  {
    if n == 0 then [] else DigestBytes(data, lb, n - 1, hash) + Padded(hash(BlockAt(data, lb + n - 1)))
  }

  lemma {:induction false} SlotsAreDigests(dst: seq<Byte>, data: seq<Byte>, lb: nat, n: nat,
                                           hash: seq<Byte> -> seq<Byte>)
    requires LB_SIZE * (lb + n) <= |data| && Digest(hash) && FP_LENGTH * n <= |dst|
    requires forall k :: 0 <= k < n ==> Slot(dst, k) == Padded(hash(BlockAt(data, lb + k)))
    ensures dst[..FP_LENGTH * n] == DigestBytes(data, lb, n, hash)
    decreases n
  {
    hide Padded, BlockAt;
    if n > 0 {
      SlotsAreDigests(dst, data, lb, n - 1, hash);
      assert dst[..FP_LENGTH * n] == dst[..FP_LENGTH * (n - 1)] + Slot(dst, n - 1);
    }
  }

  /** What the fingerprint loops leave in a cleared buffer are the fingerprints of the blocks of the
      request - block `lb + k` of the data of the I/O request at place `k` - whatever other
      replicas computed before. */
  lemma DigestsCarried(f: Fp, data: seq<Byte>, lb: nat, n: nat, hash: seq<Byte> -> seq<Byte>)
    requires LB_SIZE * (lb + n) <= |data| && lb + n <= |BlocksOfSeg(data)|
    requires CacheExact(f, BlocksOfSeg(data), hash) && Room(f, lb, 0, n) && Cleared(f, 0, n)
    ensures var g := FpRun(f, lb, 0, BlocksOfSeg(data)[lb..lb + n], hash);
            && |g.dst| == |f.dst| && CacheExact(g, BlocksOfSeg(data), hash)
            && g.dst[..FP_LENGTH * n] == DigestBytes(data, lb, n, hash)
  {
    hide BlocksOfSeg, FpRun, Room, BlockAt, Slot, DigestBytes, Padded;
    var g := FpRun(f, lb, 0, BlocksOfSeg(data)[lb..lb + n], hash);
    RunPadded(f, lb, 0, n, BlocksOfSeg(data), hash);
    BlocksAt(data);
    forall k | 0 <= k < n ensures Slot(g.dst, k) == Padded(hash(BlockAt(data, lb + k))) {
      assert Slot(g.dst, 0 + (lb + k - lb)) == Padded(hash(BlocksOfSeg(data)[lb + k]));
    }
    SlotsAreDigests(g.dst, data, lb, n, hash);
  }

  /** Place `k` of the packet is the fingerprint of block `k`. */
  lemma {:induction false} DigestAt(r: UdReq, reserved: seq<Byte>, data: seq<Byte>, lb: nat, n: nat,
                                    hash: seq<Byte> -> seq<Byte>, k: nat)
    requires |reserved| == 3 && |r.hbids| == n && LB_SIZE * (lb + n) <= |data| && Digest(hash) && k < n
    ensures var p := PacketBytes(r, reserved, DigestBytes(data, lb, n, hash));
            HEADER_LEN + 8 * n + FP_LENGTH * (k + 1) <= |p| && FpAt(p, n, k) == Padded(hash(BlockAt(data, lb + k)))
  {
    hide PacketBytes, FpAt;
    PacketFp(r, reserved, DigestBytes(data, lb, n, hash), k);
    DigestSlot(data, lb, n, hash, k);
  }

  lemma {:induction false} DigestSlot(data: seq<Byte>, lb: nat, n: nat, hash: seq<Byte> -> seq<Byte>, k: nat)
    requires LB_SIZE * (lb + n) <= |data| && Digest(hash) && k < n
    ensures Slot(DigestBytes(data, lb, n, hash), k) == Padded(hash(BlockAt(data, lb + k)))
    decreases n
  {
    hide Padded, BlockAt;
    var s := DigestBytes(data, lb, n, hash);
    if k < n - 1 {
      DigestSlot(data, lb, n - 1, hash, k);
      assert s[..FP_LENGTH * (n - 1)] == DigestBytes(data, lb, n - 1, hash);
      PrefixSlot(s, n - 1, k);
    }
  }

  lemma SizeKept(f: Fp, lb: nat, n: nat, hash: seq<Byte> -> seq<Byte>)
    requires Room(f, lb, 0, n)
    ensures FP_LENGTH * n <= |f.dst|
  {
  }

  lemma PrefixSlot(s: seq<Byte>, n: nat, k: nat)
    requires FP_LENGTH * n <= |s| && k < n
    ensures Slot(s[..FP_LENGTH * n], k) == Slot(s, k)
  {
  }

  lemma BlockIndex(offset: nat, n: nat)
    requires Whole(offset)
    ensures offset == LB_SIZE * (offset / LB_SIZE) && offset + n * LB_SIZE == LB_SIZE * (offset / LB_SIZE + n)
  {
  }

  /** `memset` of the packet buffer. */
  method Clear(buf: array<Byte>)
    modifies buf
    ensures forall i :: 0 <= i < buf.Length ==> buf[i] == 0
  {
    forall i | 0 <= i < buf.Length { buf[i] := 0; }
  }

  lemma ZeroSlots(f: Fp, n: nat)
    requires FP_LENGTH * n <= |f.dst| && forall i :: 0 <= i < |f.dst| ==> f.dst[i] == 0
    ensures Cleared(f, 0, n)
  {
    forall j | 0 <= j < n ensures Slot(f.dst, j) == Zeros(FP_LENGTH) { }
  }

  /** `init_DNUDReq_Write`, and `DNCWker_send_DNUDReq` up to `DNProto_gen_ReqPacket`, for a write with
      fingerprints: the packet is a function of the request and its data. */
  method GenWrite(buf: array<Byte>, r: UdReq, chunks: seq<seq<Byte>>, offset: nat, fpMap: array<bv8>,
                  cache: array<Byte>, hash: seq<Byte> -> seq<Byte>) returns (segs: seq<Seg>, len: nat)
    requires IsWrite(r.opcode) && Layout(chunks) && Whole(offset) && offset + |r.hbids| * LB_SIZE <= |Flat(chunks)|
    requires buf != cache && (fpMap as object) != buf && (fpMap as object) != cache
    requires buf.Length >= HEADER_LEN + 28 * |r.hbids| + 8 * |r.locs|
    requires Room(Fp(fpMap[..], cache[..], Zeros(FP_LENGTH * |r.hbids|)), offset / LB_SIZE, 0, |r.hbids|)
    requires CacheExact(Fp(fpMap[..], cache[..], []), BlocksOfSeg(Flat(chunks)), hash)
    modifies buf, fpMap, cache
    ensures len == HEADER_LEN + 28 * |r.hbids| + 8 * |r.locs|
    ensures LB_SIZE * (offset / LB_SIZE + |r.hbids|) <= |Flat(chunks)|
    ensures buf[..len] == PacketBytes(r, [0, 0, 0], DigestBytes(Flat(chunks), offset / LB_SIZE, |r.hbids|, hash))
    ensures SegsOk(chunks, segs) && Sent(chunks, segs) == Flat(chunks)[offset..offset + |r.hbids| * LB_SIZE]
    ensures CacheExact(Fp(fpMap[..], cache[..], []), BlocksOfSeg(Flat(chunks)), hash)
  {
    hide Flat, Layout, BlocksOfSeg, BlocksOf, SegDatas, Sent, SegsOk, Whole, FpRun, Room, PacketBytes, CacheExact,
         DigestBytes, Cleared;
    var lb, n := offset / LB_SIZE, |r.hbids|;
    segs := InitSegments(chunks, offset, n);
    BlockIndex(offset, n);
    SegmentsAreBlocks(chunks, segs, lb, n);
    Clear(buf);
    var dst := new Byte[FP_LENGTH * n](i requires 0 <= i < FP_LENGTH * n reads buf => buf[HEADER_LEN + 8 * n + i]);
    ghost var f, data := State(fpMap, cache, dst), Flat(chunks);
    ZeroSlots(f, n);
    OutputAside(f, lb, n, BlocksOfSeg(data), hash);
    var size := GetFingerprint(Hashed(hash), fpMap, cache, dst, SegDatas(chunks, segs), lb, n);
    DigestsCarried(f, data, lb, n, hash);
    OutputAside(State(fpMap, cache, dst), lb, n, BlocksOfSeg(data), hash);
    assert buf[13..16] == [0, 0, 0];
    len := GenReqPacket(buf, r, dst[..size]);
    assert dst[..size] == dst[..][..size];
    assert Middle(r.opcode, n, dst[..size]) == dst[..size];
    assert buf[..len] == buf[..][..len];
  }

  /** The promise of the cache is not about the output. */
  lemma OutputAside(f: Fp, lb: nat, n: nat, data: seq<seq<Byte>>, hash: seq<Byte> -> seq<Byte>)
    ensures CacheExact(f, data, hash) <==> CacheExact(f.(dst := []), data, hash)
    ensures Room(f.(dst := Zeros(FP_LENGTH * n)), lb, 0, n) && |f.dst| == FP_LENGTH * n ==> Room(f, lb, 0, n)
    ensures CacheExact(f, data, hash) ==> Digest(hash)
  {
    hide IsSet, Slot;
  }
}
