/** Fingerprints of the blocks of a write, remembered for the other replicas in a bit map and a
    cache that belong to the I/O request. */
module Fingerprint {
  import opened Bytes
  import opened Packet
  import opened Segments

  // ---------------------------------------------------------------- the bit map

  function BitMask(o: nat): bv8
    requires o < 8
  {
    if o == 0 then 1 else if o == 1 then 2 else if o == 2 then 4 else if o == 3 then 8
    else if o == 4 then 16 else if o == 5 then 32 else if o == 6 then 64 else 128
  }

  /** Bit `o` from the low end. */
  lemma MaskShift(o: nat)
    requires o < 8
    ensures BitMask(o) == (1 as bv8) << o
  {
  }

  predicate Bit(m: bv8, o: nat)
    requires o < 8
  {
    m & BitMask(o) != 0
  }

  lemma SetBit(m: bv8, o: nat, p: nat)
    requires o < 8 && p < 8
    ensures Bit(m | BitMask(o), p) <==> Bit(m, p) || p == o
  {
  }

  predicate IsSet(fpMap: seq<bv8>, k: nat)
    requires k < 8 * |fpMap|
  {
    Bit(fpMap[k / 8], k % 8)
  }

  function Mark(fpMap: seq<bv8>, k: nat): (r: seq<bv8>)
    requires k < 8 * |fpMap|
    ensures |r| == |fpMap|
  {
    fpMap[k / 8 := fpMap[k / 8] | BitMask(k % 8)]
  }

  lemma MarkExact(fpMap: seq<bv8>, k: nat, j: nat)
    requires k < 8 * |fpMap| && j < 8 * |fpMap|
    ensures IsSet(Mark(fpMap, k), j) <==> IsSet(fpMap, j) || j == k
  {
    hide Bit, BitMask;
    if j / 8 == k / 8 { SetBit(fpMap[k / 8], k % 8, j % 8); }
  }

  // ---------------------------------------------------------------- one block

  /** Map, cache and output buffer. */
  datatype Fp = Fp(fpMap: seq<bv8>, cache: seq<Byte>, dst: seq<Byte>)

  function Slot(s: seq<Byte>, k: nat): (r: seq<Byte>)
    requires FP_LENGTH * (k + 1) <= |s|
    ensures |r| == FP_LENGTH
  {
    s[FP_LENGTH * k..FP_LENGTH * (k + 1)]
  }

  /** The digest function writes at most `FP_LENGTH` bytes; the rest of the slot stays. */
  ghost predicate Digest(hash: seq<Byte> -> seq<Byte>) { forall b :: |hash(b)| <= FP_LENGTH }

  predicate Room(f: Fp, lb: nat, i: nat, n: nat) {
    lb + n <= 8 * |f.fpMap| && FP_LENGTH * (lb + n) <= |f.cache| && FP_LENGTH * (i + n) <= |f.dst|
  }

  /** The slot computed for a block that is not in the cache. */
  function Written(h: seq<Byte>, slot: seq<Byte>): (r: seq<Byte>)
    requires |slot| == FP_LENGTH && |h| <= FP_LENGTH
    ensures |r| == FP_LENGTH && r[..|h|] == h
  {
    h + slot[|h|..]
  }

  function FpStep(f: Fp, lb: nat, i: nat, block: seq<Byte>, hash: seq<Byte> -> seq<Byte>): (r: Fp)
    requires Room(f, lb, i, 1) && |hash(block)| <= FP_LENGTH
    ensures |r.fpMap| == |f.fpMap| && |r.cache| == |f.cache| && |r.dst| == |f.dst|
  {
    if IsSet(f.fpMap, lb) then f.(dst := Splice(f.dst, FP_LENGTH * i, Slot(f.cache, lb)))
    else
      var slot := Written(hash(block), Slot(f.dst, i));
      Fp(Mark(f.fpMap, lb), Splice(f.cache, FP_LENGTH * lb, slot), Splice(f.dst, FP_LENGTH * i, slot))
  }

  /** All blocks of a request, from block `lb` of the I/O request and output slot `i` on. */
  ghost function FpRun(f: Fp, lb: nat, i: nat, blocks: seq<seq<Byte>>, hash: seq<Byte> -> seq<Byte>): Fp
    requires Room(f, lb, i, |blocks|) && Digest(hash)
    decreases |blocks|
  {
    if blocks == [] then f
    else FpRun(FpStep(f, lb, i, blocks[0], hash), lb + 1, i + 1, blocks[1..], hash)
  }

  lemma SpliceSlot(s: seq<Byte>, k: nat, v: seq<Byte>, j: nat)
    requires FP_LENGTH * (k + 1) <= |s| && FP_LENGTH * (j + 1) <= |s| && |v| == FP_LENGTH
    ensures Slot(Splice(s, FP_LENGTH * k, v), j) == if j == k then v else Slot(s, j)
  {
    var r := Splice(s, FP_LENGTH * k, v);
    if j < k {
      assert forall x :: FP_LENGTH * j <= x < FP_LENGTH * (j + 1) ==> r[x] == s[x];
    } else if j > k {
      assert forall x :: FP_LENGTH * j <= x < FP_LENGTH * (j + 1) ==> r[x] == s[x];
    }
  }

  // ---------------------------------------------------------------- what the cache promises

  /** Every set bit stands for a slot that begins with the digest of that block of the data. */
  ghost predicate CacheOk(f: Fp, data: seq<seq<Byte>>, hash: seq<Byte> -> seq<Byte>) {
    && Digest(hash) && |data| <= 8 * |f.fpMap| && FP_LENGTH * |data| <= |f.cache|
    && forall k :: 0 <= k < |data| && IsSet(f.fpMap, k) ==> Slot(f.cache, k)[..|hash(data[k])|] == hash(data[k])
  }

  /** Nothing remembered is forgotten or changed. */
  ghost predicate Remembers(f: Fp, r: Fp) {
    && |r.fpMap| == |f.fpMap| && |r.cache| == |f.cache| && |r.dst| == |f.dst|
    && forall k :: 0 <= k < 8 * |f.fpMap| && FP_LENGTH * (k + 1) <= |f.cache| && IsSet(f.fpMap, k) ==>
         IsSet(r.fpMap, k) && Slot(r.cache, k) == Slot(f.cache, k)
  }

  lemma StepExact(f: Fp, lb: nat, i: nat, data: seq<seq<Byte>>, hash: seq<Byte> -> seq<Byte>)
    requires CacheOk(f, data, hash) && lb < |data| && Room(f, lb, i, 1)
    ensures var r := FpStep(f, lb, i, data[lb], hash);
            && CacheOk(r, data, hash) && Remembers(f, r)
            && IsSet(r.fpMap, lb) && Slot(r.cache, lb) == Slot(r.dst, i)
            && (IsSet(f.fpMap, lb) ==> r.fpMap == f.fpMap && r.cache == f.cache && Slot(r.dst, i) == Slot(f.cache, lb))
            && (!IsSet(f.fpMap, lb) ==> Slot(r.dst, i) == Written(hash(data[lb]), Slot(f.dst, i)))
            && forall j :: 0 <= j && FP_LENGTH * (j + 1) <= |f.dst| && j != i ==> Slot(r.dst, j) == Slot(f.dst, j)
  {
    hide IsSet, Mark, Splice, Slot, Written;
    var r, h := FpStep(f, lb, i, data[lb], hash), hash(data[lb]);
    var slot := if IsSet(f.fpMap, lb) then Slot(f.cache, lb) else Written(h, Slot(f.dst, i));
    forall j | 0 <= j && FP_LENGTH * (j + 1) <= |f.dst|
      ensures Slot(r.dst, j) == if j == i then slot else Slot(f.dst, j)
    {
      SpliceSlot(f.dst, i, slot, j);
    }
    if !IsSet(f.fpMap, lb) {
      forall k | 0 <= k < 8 * |f.fpMap|
        ensures IsSet(r.fpMap, k) <==> IsSet(f.fpMap, k) || k == lb
      {
        MarkExact(f.fpMap, lb, k);
      }
      forall k | 0 <= k && FP_LENGTH * (k + 1) <= |f.cache|
        ensures Slot(r.cache, k) == if k == lb then slot else Slot(f.cache, k)
      {
        SpliceSlot(f.cache, lb, slot, k);
      }
    }
  }

  /** What a pass over the `n` blocks from `lb` on leaves behind, in output slots `i` to `i + n`. */
  ghost predicate Produced(f: Fp, r: Fp, lb: nat, i: nat, n: nat, data: seq<seq<Byte>>, hash: seq<Byte> -> seq<Byte>)
    requires lb + n <= |data| && CacheOk(r, data, hash) && Remembers(f, r) && Room(f, lb, i, n)
  {
    && (forall b :: lb <= b < lb + n ==> IsSet(r.fpMap, b) && Slot(r.cache, b) == Slot(r.dst, i + (b - lb)))
    && (forall j :: 0 <= j && FP_LENGTH * (j + 1) <= |f.dst| && !(i <= j < i + n) ==> Slot(r.dst, j) == Slot(f.dst, j))
  }

  /** Every output slot begins with the digest of its block, in order; the cache keeps its promise
      and holds the same slots; nothing else in the output changes. */
  lemma {:induction false} RunExact(f: Fp, lb: nat, i: nat, n: nat, data: seq<seq<Byte>>, hash: seq<Byte> -> seq<Byte>)
    requires CacheOk(f, data, hash) && lb + n <= |data| && Room(f, lb, i, n)
    ensures var r := FpRun(f, lb, i, data[lb..lb + n], hash);
            && CacheOk(r, data, hash) && Remembers(f, r) && Produced(f, r, lb, i, n, data, hash)
    decreases n
  {
    hide IsSet, Slot, FpStep;
    if n > 0 {
      var f1 := FpStep(f, lb, i, data[lb], hash);
      assert data[lb..lb + n][0] == data[lb] && data[lb..lb + n][1..] == data[lb + 1..lb + n];
      StepExact(f, lb, i, data, hash);
      RunExact(f1, lb + 1, i + 1, n - 1, data, hash);
      ProducedStep(f, f1, FpRun(f1, lb + 1, i + 1, data[lb + 1..lb + n], hash), lb, i, n, data, hash);
    }
  }

  lemma ProducedStep(f: Fp, f1: Fp, r: Fp, lb: nat, i: nat, n: nat, data: seq<seq<Byte>>, hash: seq<Byte> -> seq<Byte>)
    requires n > 0 && lb + n <= |data| && Room(f, lb, i, n) && CacheOk(r, data, hash) && Remembers(f, f1)
    requires Remembers(f1, r)
    requires IsSet(f1.fpMap, lb) && FP_LENGTH * (lb + 1) <= |f1.cache| && Slot(f1.cache, lb) == Slot(f1.dst, i)
    requires forall j :: 0 <= j && FP_LENGTH * (j + 1) <= |f.dst| && j != i ==> Slot(f1.dst, j) == Slot(f.dst, j)
    requires Produced(f1, r, lb + 1, i + 1, n - 1, data, hash)
    ensures Remembers(f, r) && Produced(f, r, lb, i, n, data, hash)
  {
    hide IsSet, Slot;
    forall b | lb <= b < lb + n ensures IsSet(r.fpMap, b) && Slot(r.cache, b) == Slot(r.dst, i + (b - lb)) {
      if b > lb {
        assert i + 1 + (b - (lb + 1)) == i + (b - lb);
      } else {
        assert Slot(f1.dst, i) == Slot(r.dst, i);
      }
    }
  }

  /** A digest that fills the slot is the whole fingerprint. */
  lemma FullDigest(f: Fp, lb: nat, i: nat, n: nat, data: seq<seq<Byte>>, hash: seq<Byte> -> seq<Byte>, k: nat)
    requires CacheOk(f, data, hash) && lb + n <= |data| && Room(f, lb, i, n) && k < n
    ensures var r := FpRun(f, lb, i, data[lb..lb + n], hash);
            |r.dst| == |f.dst| && Slot(r.dst, i + k)[..|hash(data[lb + k])|] == hash(data[lb + k])
            && (|hash(data[lb + k])| == FP_LENGTH ==> Slot(r.dst, i + k) == hash(data[lb + k]))
  {
    hide IsSet, Slot, FpRun;
    RunExact(f, lb, i, n, data, hash);
    var r := FpRun(f, lb, i, data[lb..lb + n], hash);
    assert IsSet(r.fpMap, lb + k);
    assert i + (lb + k - lb) == i + k;
    if |hash(data[lb + k])| == FP_LENGTH { assert Slot(r.dst, i + k)[..FP_LENGTH] == Slot(r.dst, i + k); }
  }

  /** For another replica, with any output buffer, the same bytes come out and nothing changes. */
  lemma {:induction false} SameForReplicas(f: Fp, dst: seq<Byte>, lb: nat, i: nat, n: nat, data: seq<seq<Byte>>,
                                           hash: seq<Byte> -> seq<Byte>)
    requires CacheOk(f, data, hash) && lb + n <= |data| && Room(f.(dst := dst), lb, i, n)
    requires forall b :: lb <= b < lb + n ==> IsSet(f.fpMap, b)
    ensures var r := FpRun(f.(dst := dst), lb, i, data[lb..lb + n], hash);
            && r.fpMap == f.fpMap && r.cache == f.cache && |r.dst| == |dst|
            && forall b :: lb <= b < lb + n ==> Slot(r.dst, i + (b - lb)) == Slot(f.cache, b)
    decreases n
  {
    hide IsSet, Slot, FpStep;
    var g := f.(dst := dst);
    assert CacheOk(g, data, hash);
    RunExact(g, lb, i, n, data, hash);
    RunUnchanged(g, lb, i, n, data, hash);
    var r := FpRun(g, lb, i, data[lb..lb + n], hash);
    forall b | lb <= b < lb + n ensures Slot(r.dst, i + (b - lb)) == Slot(f.cache, b) {
      assert IsSet(r.fpMap, b);
    }
  }

  lemma {:induction false} RunUnchanged(f: Fp, lb: nat, i: nat, n: nat, data: seq<seq<Byte>>,
                                        hash: seq<Byte> -> seq<Byte>)
    requires CacheOk(f, data, hash) && lb + n <= |data| && Room(f, lb, i, n)
    requires forall b :: lb <= b < lb + n ==> IsSet(f.fpMap, b)
    ensures var r := FpRun(f, lb, i, data[lb..lb + n], hash); r.fpMap == f.fpMap && r.cache == f.cache
    decreases n
  {
    hide IsSet, Slot, FpStep;
    if n > 0 {
      assert IsSet(f.fpMap, lb);
      var f1 := FpStep(f, lb, i, data[lb], hash);
      assert data[lb..lb + n][0] == data[lb] && data[lb..lb + n][1..] == data[lb + 1..lb + n];
      StepExact(f, lb, i, data, hash);
      assert f1.fpMap == f.fpMap;
      RunUnchanged(f1, lb + 1, i + 1, n - 1, data, hash);
    }
  }

  // ---------------------------------------------------------------- in a cleared buffer

  function Zeros(n: nat): (s: seq<Byte>)
    ensures |s| == n
  {
    seq(n, _ => 0)
  }

  /** A digest filled up with zeros. */
  function Padded(h: seq<Byte>): (s: seq<Byte>)
    requires |h| <= FP_LENGTH
    ensures |s| == FP_LENGTH
  {
    h + Zeros(FP_LENGTH - |h|)
  }

  /** Every set bit stands for the digest of that block, padded with zeros. */
  ghost predicate CacheExact(f: Fp, data: seq<seq<Byte>>, hash: seq<Byte> -> seq<Byte>) {
    && Digest(hash) && |data| <= 8 * |f.fpMap| && FP_LENGTH * |data| <= |f.cache|
    && forall k :: 0 <= k < |data| && IsSet(f.fpMap, k) ==> Slot(f.cache, k) == Padded(hash(data[k]))
  }

  /** Output slots `i` to `i + n` are zero. */
  ghost predicate Cleared(f: Fp, i: nat, n: nat) {
    FP_LENGTH * (i + n) <= |f.dst| && forall j :: i <= j < i + n ==> Slot(f.dst, j) == Zeros(FP_LENGTH)
  }

  lemma ExactIsOk(f: Fp, data: seq<seq<Byte>>, hash: seq<Byte> -> seq<Byte>)
    requires CacheExact(f, data, hash)
    ensures CacheOk(f, data, hash)
  {
    hide IsSet, Slot;
  }

  lemma WrittenInZeros(h: seq<Byte>)
    requires |h| <= FP_LENGTH
    ensures Written(h, Zeros(FP_LENGTH)) == Padded(h)
  {
  }

  lemma StepPadded(f: Fp, lb: nat, i: nat, n: nat, data: seq<seq<Byte>>, hash: seq<Byte> -> seq<Byte>)
    requires CacheExact(f, data, hash) && lb < |data| && n > 0 && Room(f, lb, i, n) && Cleared(f, i, n)
    ensures var r := FpStep(f, lb, i, data[lb], hash);
            CacheExact(r, data, hash) && Slot(r.dst, i) == Padded(hash(data[lb])) && Cleared(r, i + 1, n - 1)
  {
    hide IsSet, Mark, Splice, Slot, Written, Padded, Zeros;
    var r, h := FpStep(f, lb, i, data[lb], hash), hash(data[lb]);
    WrittenInZeros(h);
    forall j | i <= j < i + n ensures Slot(r.dst, j) == if j == i then Padded(h) else Slot(f.dst, j) {
      SpliceSlot(f.dst, i, Padded(h), j);
    }
    if !IsSet(f.fpMap, lb) {
      forall k | 0 <= k < |data|
        ensures IsSet(r.fpMap, k) <==> IsSet(f.fpMap, k) || k == lb
      {
        MarkExact(f.fpMap, lb, k);
      }
      forall k | 0 <= k < |data| ensures Slot(r.cache, k) == if k == lb then Padded(h) else Slot(f.cache, k) {
        SpliceSlot(f.cache, lb, Padded(h), k);
      }
    }
  }

  /** In a cleared buffer every output slot is its digest padded with zeros, whatever its length, for
      the first replica and for every other. */
  lemma {:induction false} RunPadded(f: Fp, lb: nat, i: nat, n: nat, data: seq<seq<Byte>>, hash: seq<Byte> -> seq<Byte>)
    requires CacheExact(f, data, hash) && lb + n <= |data| && Room(f, lb, i, n) && Cleared(f, i, n)
    ensures var r := FpRun(f, lb, i, data[lb..lb + n], hash);
            && |r.dst| == |f.dst| && CacheExact(r, data, hash)
            && forall b :: lb <= b < lb + n ==> Slot(r.dst, i + (b - lb)) == Padded(hash(data[b]))
    decreases n
  {
    hide IsSet, Slot, FpStep, Padded;
    if n > 0 {
      var f1 := FpStep(f, lb, i, data[lb], hash);
      assert data[lb..lb + n][0] == data[lb] && data[lb..lb + n][1..] == data[lb + 1..lb + n];
      StepPadded(f, lb, i, n, data, hash);
      ExactIsOk(f1, data, hash);
      RunExact(f1, lb + 1, i + 1, n - 1, data, hash);
      RunPadded(f1, lb + 1, i + 1, n - 1, data, hash);
      PaddedStep(f1, FpRun(f1, lb + 1, i + 1, data[lb + 1..lb + n], hash), lb, i, n, data, hash);
    }
  }

  lemma PaddedStep(f1: Fp, r: Fp, lb: nat, i: nat, n: nat, data: seq<seq<Byte>>, hash: seq<Byte> -> seq<Byte>)
    requires n > 0 && lb + n <= |data| && CacheOk(r, data, hash) && Remembers(f1, r) && Room(f1, lb + 1, i + 1, n - 1)
    requires FP_LENGTH * (i + n) <= |f1.dst| && Slot(f1.dst, i) == Padded(hash(data[lb]))
    requires Produced(f1, r, lb + 1, i + 1, n - 1, data, hash)
    requires forall b :: lb + 1 <= b < lb + n ==> Slot(r.dst, i + 1 + (b - (lb + 1))) == Padded(hash(data[b]))
    ensures forall b :: lb <= b < lb + n ==> Slot(r.dst, i + (b - lb)) == Padded(hash(data[b]))
  {
    hide IsSet, Slot, Padded;
    forall b | lb <= b < lb + n ensures Slot(r.dst, i + (b - lb)) == Padded(hash(data[b])) {
      if b > lb {
        assert i + 1 + (b - (lb + 1)) == i + (b - lb);
      } else {
        assert Slot(r.dst, i) == Slot(f1.dst, i);
      }
    }
  }

  /** Why the buffer is cleared: without that a first fingerprint is independent of what the buffer
      held exactly when the digest fills the slot, and MD5 fills 16 of the 20 bytes. */
  lemma StaleExactly(h: seq<Byte>)
    requires |h| <= FP_LENGTH
    ensures (forall a: seq<Byte>, b: seq<Byte> :: |a| == |b| == FP_LENGTH ==> Written(h, a) == Written(h, b)) <==>
              |h| == FP_LENGTH
  {
    var zeros, ones: seq<Byte> := seq(FP_LENGTH, _ => 0), seq(FP_LENGTH, _ => 1);
    if |h| < FP_LENGTH {
      assert Written(h, zeros)[|h|] == 0 && Written(h, ones)[|h|] == 1;
    }
  }

  // ---------------------------------------------------------------- in place

  /** The blocks of one segment, and of all segments in order. */
  function BlocksOfSeg(seg: seq<Byte>): seq<seq<Byte>> {
    if |seg| < LB_SIZE then [] else [seg[..LB_SIZE]] + BlocksOfSeg(seg[LB_SIZE..])
  }

  function BlocksOf(segs: seq<seq<Byte>>): seq<seq<Byte>> {
    if segs == [] then [] else BlocksOfSeg(segs[0]) + BlocksOf(segs[1..])
  }

  ghost predicate AllWhole(segs: seq<seq<Byte>>) { forall i :: 0 <= i < |segs| ==> Whole(|segs[i]|) }

  lemma SegHead(seg: seq<Byte>, j: nat)
    requires j < |seg| && Whole(|seg| - j)
    ensures j + LB_SIZE <= |seg| && Whole(|seg| - (j + LB_SIZE))
    ensures BlocksOfSeg(seg[j..]) == [seg[j..j + LB_SIZE]] + BlocksOfSeg(seg[j + LB_SIZE..])
  {
    assert seg[j..][..LB_SIZE] == seg[j..j + LB_SIZE] && seg[j..][LB_SIZE..] == seg[j + LB_SIZE..];
  }

  function State(fpMap: array<bv8>, cache: array<Byte>, dst: array<Byte>): Fp
    reads fpMap, cache, dst
  {
    Fp(fpMap[..], cache[..], dst[..])
  }

  predicate Apart(fpMap: array<bv8>, cache: array<Byte>, dst: array<Byte>) {
    cache != dst && (fpMap as object) != cache && (fpMap as object) != dst
  }

  /** `test_and_set_bit`. */
  method TestAndSet(fpMap: array<bv8>, lb: nat) returns (was: bool)
    requires lb < 8 * fpMap.Length
    modifies fpMap
    ensures was == IsSet(old(fpMap[..]), lb) && fpMap[..] == Mark(old(fpMap[..]), lb)
    ensures was ==> fpMap[..] == old(fpMap[..])
  {
    hide BitMask;
    var bits := fpMap[lb / 8];
    was := Bit(bits, lb % 8);
    if was { KeepBit(bits, lb % 8); }
    fpMap[lb / 8] := bits | BitMask(lb % 8);
  }

  method CopySlot(src: array<Byte>, k: nat, dst: array<Byte>, i: nat)
    requires src != dst && FP_LENGTH * (k + 1) <= src.Length && FP_LENGTH * (i + 1) <= dst.Length
    modifies dst
    ensures dst[..] == Splice(old(dst[..]), FP_LENGTH * i, Slot(src[..], k))
  {
    hide Splice;
    assert src[FP_LENGTH * k..FP_LENGTH * (k + 1)] == Slot(src[..], k);
    Store(dst, FP_LENGTH * i, src[FP_LENGTH * k..FP_LENGTH * (k + 1)]);
  }

  /** One turn of the inner loop of `_cal_fingerprint`. */
  method FpBlock(fpMap: array<bv8>, cache: array<Byte>, dst: array<Byte>, lb: nat, i: nat, block: seq<Byte>,
                 hash: seq<Byte> -> seq<Byte>)
    requires Apart(fpMap, cache, dst) && Room(State(fpMap, cache, dst), lb, i, 1) && |hash(block)| <= FP_LENGTH
    modifies fpMap, cache, dst
    ensures State(fpMap, cache, dst) == FpStep(old(State(fpMap, cache, dst)), lb, i, block, hash)
  {
    hide IsSet, Mark, Splice, Slot, Written;
    ghost var d0 := dst[..];
    var cached := TestAndSet(fpMap, lb);
    if cached {
      CopySlot(cache, lb, dst, i);
    } else {
      var h := hash(block);
      Store(dst, FP_LENGTH * i, h);
      WrittenSlot(d0, i, h);
      CopySlot(dst, i, cache, lb);
    }
  }

  lemma KeepBit(m: bv8, o: nat)
    requires o < 8 && Bit(m, o)
    ensures m | BitMask(o) == m
  {
  }

  /** Writing the digest at the start of the slot is writing the whole slot with its old rest. */
  lemma WrittenSlot(d: seq<Byte>, i: nat, h: seq<Byte>)
    requires FP_LENGTH * (i + 1) <= |d| && |h| <= FP_LENGTH
    ensures Splice(d, FP_LENGTH * i, h) == Splice(d, FP_LENGTH * i, Written(h, Slot(d, i)))
    ensures Slot(Splice(d, FP_LENGTH * i, h), i) == Written(h, Slot(d, i))
  {
  }

  /** The inner loop of `_cal_fingerprint`: the blocks of one segment. */
  method FpSegment(fpMap: array<bv8>, cache: array<Byte>, dst: array<Byte>, seg: seq<Byte>, lbOff: nat, start: nat,
                   hash: seq<Byte> -> seq<Byte>) returns (lb: nat, c: nat)
    requires Apart(fpMap, cache, dst) && Whole(|seg|) && Digest(hash)
    requires Room(State(fpMap, cache, dst), lbOff, start, |BlocksOfSeg(seg)|)
    modifies fpMap, cache, dst
    ensures lb == lbOff + |BlocksOfSeg(seg)| && c == start + |BlocksOfSeg(seg)|
    ensures State(fpMap, cache, dst) == FpRun(old(State(fpMap, cache, dst)), lbOff, start, BlocksOfSeg(seg), hash)
  {
    hide FpStep, BlocksOfSeg, Whole;
    ghost var all := FpRun(State(fpMap, cache, dst), lbOff, start, BlocksOfSeg(seg), hash);
    lb, c := lbOff, start;
    var j := 0;
    assert seg[0..] == seg;
    while j < |seg|
      invariant 0 <= j <= |seg| && Whole(|seg| - j)
      invariant lb + |BlocksOfSeg(seg[j..])| == lbOff + |BlocksOfSeg(seg)| && lb - lbOff == c - start
      invariant Room(State(fpMap, cache, dst), lb, c, |BlocksOfSeg(seg[j..])|)
      invariant all == FpRun(State(fpMap, cache, dst), lb, c, BlocksOfSeg(seg[j..]), hash)
      decreases |seg| - j
    {
      SegHead(seg, j);
      ghost var blocks := BlocksOfSeg(seg[j..]);
      assert blocks[0] == seg[j..j + LB_SIZE] && blocks[1..] == BlocksOfSeg(seg[j + LB_SIZE..]);
      FpBlock(fpMap, cache, dst, lb, c, seg[j..j + LB_SIZE], hash);
      lb, c, j := lb + 1, c + 1, j + LB_SIZE;
    }
    NoBlocks(seg, j);
  }

  lemma {:induction false} FpRunSize(f: Fp, lb: nat, i: nat, blocks: seq<seq<Byte>>, hash: seq<Byte> -> seq<Byte>)
    requires Room(f, lb, i, |blocks|) && Digest(hash)
    ensures var r := FpRun(f, lb, i, blocks, hash);
            |r.fpMap| == |f.fpMap| && |r.cache| == |f.cache| && |r.dst| == |f.dst|
    decreases |blocks|
  {
    hide FpStep;
    if blocks != [] { FpRunSize(FpStep(f, lb, i, blocks[0], hash), lb + 1, i + 1, blocks[1..], hash); }
  }

  lemma {:induction false} FpRunAppend(f: Fp, lb: nat, i: nat, a: seq<seq<Byte>>, b: seq<seq<Byte>>,
                                       hash: seq<Byte> -> seq<Byte>)
    requires Room(f, lb, i, |a + b|) && Digest(hash)
    ensures Room(FpRun(f, lb, i, a, hash), lb + |a|, i + |a|, |b|)
    ensures FpRun(f, lb, i, a + b, hash) == FpRun(FpRun(f, lb, i, a, hash), lb + |a|, i + |a|, b, hash)
    decreases |a|
  {
    hide FpStep;
    FpRunSize(f, lb, i, a, hash);
    if a == [] {
      assert a + b == b;
    } else {
      FpRunAppend(FpStep(f, lb, i, a[0], hash), lb + 1, i + 1, a[1..], b, hash);
      assert (a + b)[1..] == a[1..] + b;
    }
  }

  /** `_cal_fingerprint`: segment by segment, block by block. */
  method CalFingerprint(fpMap: array<bv8>, cache: array<Byte>, dst: array<Byte>, segs: seq<seq<Byte>>, lbOff: nat,
                        hash: seq<Byte> -> seq<Byte>)
    requires Apart(fpMap, cache, dst) && AllWhole(segs) && Digest(hash)
    requires Room(State(fpMap, cache, dst), lbOff, 0, |BlocksOf(segs)|)
    modifies fpMap, cache, dst
    ensures State(fpMap, cache, dst) == FpRun(old(State(fpMap, cache, dst)), lbOff, 0, BlocksOf(segs), hash)
  {
    hide FpRun, BlocksOfSeg, Whole, Room;
    ghost var all := FpRun(State(fpMap, cache, dst), lbOff, 0, BlocksOf(segs), hash);
    var lb: nat, c: nat := lbOff, 0;
    var i := 0;
    assert segs[0..] == segs;
    while i < |segs|
      invariant 0 <= i <= |segs|
      invariant Room(State(fpMap, cache, dst), lb, c, |BlocksOf(segs[i..])|)
      invariant all == FpRun(State(fpMap, cache, dst), lb, c, BlocksOf(segs[i..]), hash)
    {
      assert segs[i..][1..] == segs[i + 1..];
      LessRoom(State(fpMap, cache, dst), lb, c, |BlocksOf(segs[i..])|, |BlocksOfSeg(segs[i])|);
      FpRunAppend(State(fpMap, cache, dst), lb, c, BlocksOfSeg(segs[i]), BlocksOf(segs[i + 1..]), hash);
      lb, c := FpSegment(fpMap, cache, dst, segs[i], lb, c, hash);
      i := i + 1;
    }
    EmptyRun(State(fpMap, cache, dst), lb, c, hash);
  }

  lemma LessRoom(f: Fp, lb: nat, i: nat, n: nat, m: nat)
    requires Room(f, lb, i, n) && m <= n
    ensures Room(f, lb, i, m)
  {
  }

  lemma EmptyRun(f: Fp, lb: nat, i: nat, hash: seq<Byte> -> seq<Byte>)
    requires Room(f, lb, i, 0) && Digest(hash)
    ensures FpRun(f, lb, i, [], hash) == f
  {
  }

  datatype Method = Disabled | Hashed(hash: seq<Byte> -> seq<Byte>)

  /** `get_fingerprint`: zeros when fingerprints are disabled, for `n` blocks. */
  method GetFingerprint(how: Method, fpMap: array<bv8>, cache: array<Byte>, dst: array<Byte>, segs: seq<seq<Byte>>,
                        lbOff: nat, n: nat) returns (len: nat)
    requires Apart(fpMap, cache, dst) && AllWhole(segs) && n == |BlocksOf(segs)|
    requires Room(State(fpMap, cache, dst), lbOff, 0, n) && (how.Hashed? ==> Digest(how.hash))
    modifies fpMap, cache, dst
    ensures len == FP_LENGTH * n
    ensures how.Hashed? ==>
              State(fpMap, cache, dst) == FpRun(old(State(fpMap, cache, dst)), lbOff, 0, BlocksOf(segs), how.hash)
    ensures how.Disabled? ==> fpMap[..] == old(fpMap[..]) && cache[..] == old(cache[..])
                              && dst[..] == Splice(old(dst[..]), 0, seq(FP_LENGTH * n, _ => 0))
  {
    hide BlocksOf, FpRun;
    len := FP_LENGTH * n;
    if how.Disabled? {
      Store(dst, 0, seq(FP_LENGTH * n, _ => 0));
    } else {
      CalFingerprint(fpMap, cache, dst, segs, lbOff, how.hash);
    }
  }

  lemma NoBlocks(seg: seq<Byte>, j: nat)
    requires j == |seg|
    ensures BlocksOfSeg(seg[j..]) == []
  {
  }
}
