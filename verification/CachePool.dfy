/** The cache pool object: its operations as the loops that update tree, LRU list, leaf words
    and counters in place, each proved to have the effect its function in CacheOps gives. */
module CachePool {
  import opened Wrappers
  import opened Seqs
  import opened MachineInts
  import opened LeafWord
  import opened CacheState
  import opened CacheOps
  import opened CacheRuns

  /** `dms_radix_tree_gang_lookup`: at most `count` leaves with key >= start, ascending. */
  ghost predicate Gang(tree: map<Key, LeafId>, keys: seq<Key>, start: Key, count: nat) {
    && |keys| <= count
    && (forall i :: 0 <= i < |keys| ==> keys[i] in tree && start <= keys[i])
    && (forall i, j :: 0 <= i < j < |keys| ==> keys[i] < keys[j])
    && (forall k :: k in tree && start <= k ==>
          k in keys || (|keys| == count && forall i :: 0 <= i < |keys| ==> keys[i] < k))
  }

  ghost predicate GangKeys(tree: map<Key, LeafId>, keys: seq<Key>, count: nat) {
    |keys| <= count && forall i :: 0 <= i < |keys| ==> keys[i] in tree
  }


  method LeastKey(tree: map<Key, LeafId>, start: Key) returns (r: Option<Key>)
    ensures r.None? ==> forall k :: k in tree ==> k < start
    ensures r.Some? ==> r.value in tree && start <= r.value
    ensures r.Some? ==> forall k :: k in tree && start <= k ==> r.value <= k
  {
    r := None;
    var rest := tree.Keys;
    while rest != {}
      invariant rest <= tree.Keys
      invariant r.None? ==> forall k :: k in tree && k !in rest ==> k < start
      invariant r.Some? ==> r.value in tree && start <= r.value
      invariant r.Some? ==> forall k :: k in tree && k !in rest && start <= k ==> r.value <= k
      decreases rest
    {
      var k :| k in rest;
      rest := rest - {k};
      if start <= k && (r.None? || k < r.value) {
        r := Some(k);
      }
    }
  }

  method GangLookup(tree: map<Key, LeafId>, start: Key, count: nat) returns (keys: seq<Key>)
    ensures Gang(tree, keys, start, count) && GangKeys(tree, keys, count)
  {
    keys := [];
    var from := start;
    while |keys| < count
      invariant |keys| <= count && start <= from
      invariant forall i :: 0 <= i < |keys| ==> keys[i] in tree && start <= keys[i] < from
      invariant forall i, j :: 0 <= i < j < |keys| ==> keys[i] < keys[j]
      invariant forall k :: k in tree && start <= k < from ==> k in keys
      decreases count - |keys|
    {
      var k := LeastKey(tree, from);
      if k.None? { return; }
      keys := keys + [k.value];
      from := k.value + 1;
    }
  }

  /** Gang keys are distinct and ascending, so the i-th is at least `start + i`. */
  lemma {:induction false} GangAhead(tree: map<Key, LeafId>, keys: seq<Key>, start: Key, count: nat, i: nat)
    requires Gang(tree, keys, start, count) && i < |keys|
    ensures keys[i] >= start + i
  {
    if i > 0 {
      GangAhead(tree, keys, start, count, i - 1);
    }
  }

  /** Every cached key of the range is among the gang keys. */
  lemma GangCovers(tree: map<Key, LeafId>, keys: seq<Key>, start: Key, count: nat, k: Key)
    requires Gang(tree, keys, start, count) && k in tree && start <= k < start + count
    ensures k in keys
  {
    if k !in keys {
      GangAhead(tree, keys, start, count, count - 1);
      assert false;
    }
  }

  /** Slots below `i` still hold the looked-up leaves in order; slots from `i` on hold the leaf
      of their own key when that key is among `keys[i..]`. */
  ghost predicate Scattered(basket: seq<Option<LeafId>>, tree: map<Key, LeafId>, keys: seq<Key>, start: Key, i: nat)
  {
    && i <= |keys| <= |basket|
    && (forall j :: 0 <= j < |keys| ==> keys[j] in tree)
    && (forall m :: 0 <= m < i ==> basket[m] == Some(tree[keys[m]]))
    && (forall m :: i <= m < |basket| ==>
          basket[m] == if start + m in keys[i..] then Some(tree[start + m]) else None)
  }

  /** Moving leaf `i - 1` to the slot of its key never lands on an unprocessed slot. */
  lemma ScatterStep(b: seq<Option<LeafId>>, tree: map<Key, LeafId>, keys: seq<Key>, start: Key, i: nat)
    requires Gang(tree, keys, start, |b|) && 0 < i <= |keys| && Scattered(b, tree, keys, start, i)
    ensures keys[i - 1] >= start + i - 1 && keys[i - 1] in tree && b[i - 1] == Some(tree[keys[i - 1]])
    ensures var j := keys[i - 1];
            var b' := if j < start + |b| then b[i - 1 := None][j - start := Some(tree[j])] else b[i - 1 := None];
            Scattered(b', tree, keys, start, i - 1)
  {
    GangAhead(tree, keys, start, |b|, i - 1);
    var j := keys[i - 1];
    assert keys[i - 1..] == [j] + keys[i..];
    assert forall k :: k in keys[i - 1..] <==> k == j || k in keys[i..];
    assert start + i - 1 !in keys[i..];
  }

  lemma ScatterDone(b: seq<Option<LeafId>>, tree: map<Key, LeafId>, keys: seq<Key>, start: Key)
    requires Gang(tree, keys, start, |b|) && Scattered(b, tree, keys, start, 0)
    ensures forall m :: 0 <= m < |b| ==> b[m] == if start + m in tree then Some(tree[start + m]) else None
  {
    assert keys[0..] == keys;
    forall m | 0 <= m < |b| ensures b[m] == if start + m in tree then Some(tree[start + m]) else None {
      if start + m in tree {
        GangCovers(tree, keys, start, |b|, start + m);
      }
    }
  }

  /** Keys that are not cached need no touch. */
  lemma {:induction false} TouchSkip(s: Pool, start: Key, n: nat, m: nat)
    requires Placed(s) && m <= n
    requires forall k :: start + m <= k < start + n ==> k !in s.tree
    ensures TouchRange(s, start, n) == TouchRange(s, start, m)
    ensures Hits(s.tree, start, n) == Hits(s.tree, start, m)
    decreases n
  {
    hide Placed;
    if m < n {
      assert start + n - 1 !in s.tree;
      TouchSkip(s, start, n - 1, m);
    }
  }

  /** The first key not yet handled once the gang keys from `i` on are done. */
  function Frontier(keys: seq<Key>, start: Key, count: nat, i: nat): Key
    requires i <= |keys|
  {
    if i < |keys| && keys[i] < start + count then keys[i] else start + count
  }

  /** Touching gang key `i - 1` is the next step of the descending pass. */
  lemma FindStep(s: Pool, keys: seq<Key>, start: Key, count: nat, i: nat)
    requires Placed(s) && Gang(s.tree, keys, start, count) && 0 < i <= |keys|
    requires Frontier(keys, start, count, i) >= start && Live(s, start, Frontier(keys, start, count, i) - start)
    ensures var j := keys[i - 1];
            && start <= j && (j < start + count <==> j < Frontier(keys, start, count, i))
            && s.tree[j] in s.lru && s.tree[j] in s.mem && s.mem[s.tree[j]].blkid == j
            && (j < start + count ==> !IsDelete(s.mem[s.tree[j]].word))
    ensures var n := Frontier(keys, start, count, i) - start; var j := keys[i - 1];
            j < start + count ==>
              var t := Touch(s, s.tree[j]);
              && Placed(t) && t.tree == s.tree && Live(t, start, j - start)
              && TouchRange(s, start, n) == TouchRange(t, start, j - start)
              && |Hits(s.tree, start, n)| == |Hits(s.tree, start, j - start)| + 1
  {
    hide Placed, IsDelete, Inc;
    var n, j := Frontier(keys, start, count, i) - start, keys[i - 1];
    PlacedKey(s, j);
    if j < start + count {
      GangGap(s.tree, keys, start, count, i);
      TouchSkip(s, start, n, j + 1 - start);
      TouchPlaced(s, s.tree[j]);
      TouchLive(s, start, j);
    }
  }

  /** Nothing is cached between two neighbouring gang keys. */
  lemma GangGap(tree: map<Key, LeafId>, keys: seq<Key>, start: Key, count: nat, i: nat)
    requires Gang(tree, keys, start, count) && i <= |keys|
    ensures var lo := if i == 0 then start else keys[i - 1] + 1;
            forall k :: lo <= k < Frontier(keys, start, count, i) ==> k !in tree
  {
    var lo := if i == 0 then start else keys[i - 1] + 1;
    forall k | lo <= k < Frontier(keys, start, count, i) ensures k !in tree {
      if k in tree {
        GangCovers(tree, keys, start, count, k);
        var m := Cover(keys, k);
        assert false;
      }
    }
  }

  lemma FindEnd(s: Pool, keys: seq<Key>, start: Key, count: nat)
    requires Placed(s) && Gang(s.tree, keys, start, count) && Frontier(keys, start, count, 0) >= start
    ensures var n := Frontier(keys, start, count, 0) - start;
            TouchRange(s, start, n) == s && Hits(s.tree, start, n) == []
  {
    hide Placed;
    GangGap(s.tree, keys, start, count, 0);
    TouchSkip(s, start, Frontier(keys, start, count, 0) - start, 0);
  }

  /** Where the pass stands before gang key `i - 1`. */
  ghost predicate FindAt(s: Pool, b: seq<Option<LeafId>>, keys: seq<Key>, start: Key, i: nat, retOff: Key) {
    && Placed(s) && Gang(s.tree, keys, start, |b|) && i <= |keys|
    && retOff == Frontier(keys, start, |b|, i) && retOff >= start
    && Live(s, start, retOff - start)
    && Scattered(b, s.tree, keys, start, i)
  }

  /** What is left to touch, and how many hits there were. */
  ghost predicate TouchedSoFar(s0: Pool, s: Pool, start: Key, count: nat, retOff: Key, hits: int) {
    && s.tree == s0.tree && retOff >= start
    && Placed(s0) && Placed(s)
    && TouchRange(s0, start, count) == TouchRange(s, start, retOff - start)
    && hits + |Hits(s0.tree, start, retOff - start)| == |Hits(s0.tree, start, count)|
  }

  lemma FindBegin(s: Pool, b: seq<Option<LeafId>>, keys: seq<Key>, start: Key)
    requires WellFormed(s) && Gang(s.tree, keys, start, |b|)
    requires Scattered(b, s.tree, keys, start, |keys|)
    ensures FindAt(s, b, keys, start, |keys|, start + |b|)
    ensures TouchedSoFar(s, s, start, |b|, start + |b|, 0)
  {
    WellFormedPlaced(s);
    AllLive(s, start, |b|);
    hide WellFormed, Placed, Live, Gang, Scattered, TouchRange, Hits;
  }

  /** No cached leaf of the range is marked deleted. */
  ghost predicate Live(s: Pool, start: Key, n: nat) {
    forall k :: start <= k < start + n && k in s.tree ==> s.tree[k] in s.mem && !IsDelete(s.mem[s.tree[k]].word)
  }

  lemma AllLive(s: Pool, start: Key, n: nat)
    requires WellFormed(s)
    ensures Live(s, start, n)
  {
    hide IsDelete;
  }

  lemma TouchLive(s: Pool, start: Key, j: Key)
    requires Placed(s) && start <= j && j in s.tree && Live(s, start, j - start)
    ensures Live(Touch(s, s.tree[j]), start, j - start)
  {
    hide IsDelete, Inc;
  }

  lemma FindNext(s: Pool, b: seq<Option<LeafId>>, keys: seq<Key>, start: Key, i: nat, retOff: Key)
    requires FindAt(s, b, keys, start, i, retOff) && i > 0
    ensures i <= |keys| <= |b| && keys[i - 1] in s.tree && b[i - 1] == Some(s.tree[keys[i - 1]])
    ensures var j := keys[i - 1]; var l := s.tree[j];
            && l in s.mem && s.mem[l].blkid == j && start <= j
            && (j < retOff ==> j - start < |b| && !IsDelete(s.mem[l].word))
            && if j < retOff
               then && FindAt(Touch(s, l), b[i - 1 := None][j - start := Some(l)], keys, start, i - 1, j)
                    && forall s0, hits :: TouchedSoFar(s0, s, start, |b|, retOff, hits) ==>
                         TouchedSoFar(s0, Touch(s, l), start, |b|, j, hits + 1)
               else FindAt(s, b[i - 1 := None], keys, start, i - 1, retOff)
  {
    hide Placed, Live, IsDelete, Touch, TouchRange, Hits, Gang, Scattered;
    GangBounded(s.tree, keys, start, |b|);
    FindStep(s, keys, start, |b|, i);
    ScatterStep(b, s.tree, keys, start, i);
  }

  lemma GangBounded(tree: map<Key, LeafId>, keys: seq<Key>, start: Key, count: nat)
    requires Gang(tree, keys, start, count)
    ensures GangKeys(tree, keys, count)
    ensures forall i :: 0 < i < |keys| ==> keys[i - 1] < keys[i]
  {
  }

  /** Leaves not yet looked at, when no key can pass the test: the rest of the basket is empty. */
  ghost predicate Unplaced(s: Pool, b: seq<Option<LeafId>>, i: nat) {
    && i <= |b|
    && (forall m :: 0 <= m < i ==> b[m].Some? && b[m].value in s.mem)
    && (forall m :: i <= m < |b| ==> b[m].None?)
  }

  lemma UnplacedBegin(s: Pool, b: seq<Option<LeafId>>, keys: seq<Key>, start: Key)
    requires WellFormed(s) && Gang(s.tree, keys, start, |b|) && Scattered(b, s.tree, keys, start, |keys|)
    ensures Unplaced(s, b, |keys|)
  {
    hide WellFormed;
    forall m | 0 <= m < |keys| ensures b[m].Some? && b[m].value in s.mem { CachedKey(s, keys[m]); }
    assert keys[|keys|..] == [];
  }

  lemma UnplacedNext(s: Pool, b: seq<Option<LeafId>>, i: nat)
    requires Unplaced(s, b, i) && i > 0
    ensures i <= |b| && b[i - 1].Some? && b[i - 1].value in s.mem && Unplaced(s, b[i - 1 := None], i - 1)
  {
  }

  lemma UnplacedEnd(s: Pool, b: seq<Option<LeafId>>)
    requires Unplaced(s, b, 0)
    ensures forall m :: 0 <= m < |b| ==> b[m].None?
  {
  }

  lemma FindFinish(s0: Pool, s: Pool, b: seq<Option<LeafId>>, keys: seq<Key>, start: Key, retOff: Key, hits: int)
    requires FindAt(s, b, keys, start, 0, retOff) && TouchedSoFar(s0, s, start, |b|, retOff, hits)
    ensures s == TouchRange(s0, start, |b|) && hits == |Hits(s0.tree, start, |b|)|
    ensures forall m :: 0 <= m < |b| ==> b[m] == if start + m in s0.tree then Some(s0.tree[start + m]) else None
  {
    hide Placed, Live, TouchRange, Hits, Gang, Scattered;
    FindEnd(s, keys, start, |b|);
    ScatterDone(b, s.tree, keys, start);
  }

  /** One step of the scan: what it removes and whether that leaf was referenced. */
  lemma KickStep(s: Pool, i: nat, quota: Option<nat>, cmp: Item -> bool)
    requires WellFormed(s) && 0 < i <= |s.lru| && quota != Some(0)
    ensures s.lru[i - 1] in s.mem
    ensures var l := s.lru[i - 1]; var t := Detach(s, l, true);
            if !cmp(s.mem[l].data)
            then && Kick(s, i, quota, cmp) == Kick(s, i - 1, quota, cmp)
                 && (HeldMatch(s, i, cmp) <==> HeldMatch(s, i - 1, cmp))
            else && WellFormed(t) && i - 1 <= |t.lru|
                 && Kick(s, i, quota, cmp) == Kick(t, i - 1, Less(quota), cmp)
                 && (HeldMatch(s, i, cmp) <==> RefCount(s.mem[l].word) > 0 || HeldMatch(t, i - 1, cmp))
  {
    hide WellFormed, Detach;
    var l := s.lru[i - 1];
    CachedLeaf(s, l);
    if cmp(s.mem[l].data) {
      var t := Detach(s, l, true);
      DetachWellFormed(s, l, true);
      DetachEffect(s, l, true);
      KickSplit(s, i);
      forall j | 0 <= j < i - 1
        ensures t.lru[j] == s.lru[j] && s.lru[j] in s.mem && s.lru[j] in t.mem && t.mem[t.lru[j]] == s.mem[s.lru[j]]
      {
        CachedLeaf(s, s.lru[j]);
        DistinctLru(s, j, i - 1);
      }
      HeldStep(s, i, cmp);
      HeldAs(s, t, i - 1, cmp);
    } else {
      HeldStep(s, i, cmp);
    }
  }

  lemma DistinctLru(s: Pool, i: nat, j: nat)
    requires WellFormed(s) && i < j < |s.lru|
    ensures s.lru[i] != s.lru[j]
  {
  }

  lemma HeldStep(s: Pool, i: nat, cmp: Item -> bool)
    requires WellFormed(s) && 0 < i <= |s.lru|
    ensures s.lru[i - 1] in s.mem
    ensures HeldMatch(s, i, cmp) <==>
            (cmp(s.mem[s.lru[i - 1]].data) && RefCount(s.mem[s.lru[i - 1]].word) > 0) || HeldMatch(s, i - 1, cmp)
  {
    hide NoDup, Accounted;
  }

  lemma HeldAs(s: Pool, t: Pool, i: nat, cmp: Item -> bool)
    requires WellFormed(s) && WellFormed(t) && i <= |s.lru| && i <= |t.lru|
    requires forall j :: 0 <= j < i ==>
               t.lru[j] == s.lru[j] && s.lru[j] in s.mem && s.lru[j] in t.mem && t.mem[t.lru[j]] == s.mem[s.lru[j]]
    ensures HeldMatch(s, i, cmp) <==> HeldMatch(t, i, cmp)
  {
    hide NoDup, Accounted;
  }

  lemma KickEnd(s: Pool, i: nat, quota: Option<nat>, cmp: Item -> bool)
    requires WellFormed(s) && i <= |s.lru| && (i == 0 || quota == Some(0))
    ensures Kick(s, i, quota, cmp) == s && (i == 0 ==> !HeldMatch(s, i, cmp))
  {
  }

  /** The return code of an update. */
  datatype Code = Ok | TooBigCode | NoMemoryCode | RefusedCode

  function FateCode(fate: Fate): Code {
    match fate
    case NoMemory => NoMemoryCode
    case Refused => RefusedCode
    case Stored => Ok
  }

  function UpdateCode(s: Pool, fates: seq<Fate>): Code {
    if TooBig(s, |fates|) then TooBigCode
    else if fates == [] then Ok
    else FateCode(fates[|fates| - 1])
  }

  lemma StoredIs(s: Pool, key: Key, item: Item)
    requires WellFormed(s) && s.nextId !in s.mem && (key in s.tree ==> s.tree[key] in s.mem)
    ensures var s1 := Pool(s.tree[key := s.nextId], [s.nextId] + s.lru, s.cacheNum + 1, s.cacheSize,
                           s.mem[s.nextId := Leaf(item, key, 0)], s.nextId + 1, s.leafCnt + 1, s.released,
                           Enlist(s.index, key, item.hbid));
            UpdateOne(s, key, item, Stored) == if key in s.tree then Unlink(s1, s.tree[key]) else s1
    ensures UpdateOne(s, key, item, NoMemory) == s
  {
    hide WellFormed, Unlink;
  }

  lemma RefusedIs(s: Pool, key: Key, item: Item)
    requires WellFormed(s) && s.nextId !in s.mem
    ensures var s1 := s.(mem := s.mem[s.nextId := Leaf(item, key, 0)], nextId := s.nextId + 1,
                         leafCnt := s.leafCnt + 1);
            UpdateOne(s, key, item, Refused) == ReleaseLeaf(s1, s.nextId)
  {
    hide WellFormed;
    assert s.mem[s.nextId := Leaf(item, key, 0)] - {s.nextId} == s.mem;
  }

  lemma IndexOnly(s: Pool, index: map<Hbid, seq<Key>>)
    requires WellFormed(s)
    ensures WellFormed(s.(index := index))
  {
    assert Linked(s.(index := index));
  }

  const MAX_RETRY: nat := 30

  class CachePool {
    var tree: map<Key, LeafId>
    var lru: seq<LeafId>
    var cacheNum: int
    var cacheSize: Word
    var mem: map<LeafId, Leaf>
    var nextId: LeafId
    var leafCnt: int
    var released: seq<LeafId>
    var index: map<Hbid, seq<Key>>

    ghost function View(): Pool
      reads this
    {
      Pool(tree, lru, cacheNum, cacheSize, mem, nextId, leafCnt, released, index)
    }

    constructor (capacity: nat)
      ensures View() == EmptyPool(U32(capacity / 4096)) && WellFormed(View())
    {
      tree, lru, cacheNum, cacheSize := map[], [], 0, U32(capacity / 4096);
      mem, nextId, leafCnt, released, index := map[], 0, 0, [], map[];
      new;
      assert Linked(View());
    }

    method Release(l: LeafId)
      requires l in mem
      modifies this
      ensures View() == ReleaseLeaf(old(View()), l)
    {
      if RefCount(mem[l].word) == 0 {
        mem := mem - {l};
        leafCnt := leafCnt - 1;
        released := released + [l];
      }
    }

    method UnlinkLeaf(l: LeafId)
      requires l in mem
      modifies this
      ensures View() == Unlink(old(View()), l)
    {
      lru := Without(lru, l);
      cacheNum := cacheNum - 1;
      if RefCount(mem[l].word) > 0 {
        mem := mem[l := mem[l].(word := SetDelete(mem[l].word))];
      } else {
        Release(l);
      }
    }

    /** `_insert_hbid_htbl`: the key is listed under the HBID, once, and no other listing changes. */
    method InsertHbid(key: Key, hbid: Hbid)
      modifies this
      ensures View() == old(View()).(index := Enlist(old(index), key, hbid))
      ensures forall h, k :: Lists(index, h, k) <==> Lists(old(index), h, k) || (h == hbid && k == key)
      ensures Tidy(old(index)) ==> Tidy(index)
    {
      EnlistExact(index, key, hbid);
      if hbid !in index {
        index := index[hbid := [key]];
      } else if key !in index[hbid] {
        index := index[hbid := index[hbid] + [key]];
      }
    }

    /** `_remove_hbid_tbl`: undoes the listing and no other; no empty list stays behind. */
    method RemoveHbid(key: Key, hbid: Hbid)
      modifies this
      ensures View() == old(View()).(index := Delist(old(index), key, hbid))
      ensures Tidy(old(index)) ==>
                && Tidy(index)
                && forall h, k :: Lists(index, h, k) <==> Lists(old(index), h, k) && !(h == hbid && k == key)
    {
      if Tidy(index) { DelistExact(index, key, hbid); }
      if hbid in index {
        var rest := Without(index[hbid], key);
        index := if rest == [] then index - {hbid} else index[hbid := rest];
      }
    }

    /** `__kick_meta_cache`. `count == -1` asks for every matching leaf; `flag` then says that
        one of the removed leaves was still referenced. */
    method KickMeta(count: int, cmp: Item -> bool) returns (flag: bool)
      requires WellFormed(View())
      modifies this
      ensures WellFormed(View())
      ensures count < -1 || count == 0 ==> View() == old(View())
      ensures count > 0 ==> View() == Kick(old(View()), |old(lru)|, Some(count), cmp)
      ensures count == -1 ==> View() == Kick(old(View()), |old(lru)|, None, cmp)
      ensures flag <==> count == -1 && old(HeldMatch(View(), |lru|, cmp))
    {
      hide WellFormed, Detach, HeldMatch, Kick;
      CachedKey(View(), 0);
      flag := false;
      if count == 0 || count < -1 { return; }
      var total := if count == -1 || count > cacheNum then cacheNum else count;
      var i, nr := |lru|, 0;
      ghost var quota: Option<nat> := if count == -1 then None else Some(count);
      ghost var s0, q0 := View(), quota;
      KickEnd(s0, 0, quota, cmp);
      while i > 0
        invariant 0 <= i <= |lru| && WellFormed(View())
        invariant quota.None? <==> count == -1
        invariant quota.Some? ==> quota.value == count - nr && (nr < total || i == 0) && i <= s0.cacheNum - nr
        invariant Kick(s0, |s0.lru|, q0, cmp) == Kick(View(), i, quota, cmp)
        invariant count == -1 ==> (HeldMatch(s0, |s0.lru|, cmp) <==> flag || HeldMatch(View(), i, cmp))
        invariant count != -1 ==> !flag
        decreases i
      {
        KickStep(View(), i, quota, cmp);
        i := i - 1;
        var l := lru[i];
        if !cmp(mem[l].data) { continue; }
        flag := KickOne(l, i, count, flag);
        quota := Less(quota);
        nr := nr + 1;
        if count != -1 {
          if nr >= total { break; }
        }
      }
      KickEnd(View(), i, quota, cmp);
    }

    method KickOne(l: LeafId, ghost i: nat, count: int, flag: bool) returns (flag': bool)
      requires WellFormed(View()) && i < |lru| && l == lru[i]
      modifies this
      ensures WellFormed(View()) && View() == Detach(old(View()), l, true)
      ensures lru == old(lru)[..i] + old(lru)[i + 1..]
      ensures flag' == (flag || (count == -1 && old(RefCount(mem[l].word)) > 0))
    {
      ghost var s0 := View();
      CachedLeaf(s0, l);
      DetachWellFormed(s0, l, true);
      KickSplit(s0, i + 1);
      tree := tree - {mem[l].blkid};
      RemoveHbid(mem[l].blkid, mem[l].data.hbid);
      flag' := flag || (count == -1 && RefCount(mem[l].word) > 0);
      UnlinkLeaf(l);
    }

    method TouchLeaf(l: LeafId)
      requires l in mem
      modifies this
      ensures View() == Touch(old(View()), l)
    {
      mem := mem[l := mem[l].(word := Inc(mem[l].word))];
      lru := [l] + Without(lru, l);
    }

    method LoadBasket(keys: seq<Key>, basket: array<Option<LeafId>>, ghost start: Key)
      requires GangKeys(tree, keys, basket.Length)
      modifies basket
      ensures Scattered(basket[..], tree, keys, start, |keys|)
    {
      for k := 0 to basket.Length
        invariant forall m :: 0 <= m < k ==> basket[m] == if m < |keys| then Some(tree[keys[m]]) else None
      {
        basket[k] := if k < |keys| then Some(tree[keys[k]]) else None;
      }
    }

    method Place(basket: array<Option<LeafId>>, i: nat, j: nat, l: LeafId)
      requires i < basket.Length && j < basket.Length
      modifies basket
      ensures basket[..] == old(basket[..])[i := None][j := Some(l)]
    {
      basket[i] := None;
      basket[j] := Some(l);
    }

    /** `cache_find`: references and returns the cached leaves of `start .. start + count`. The
        basket first holds the looked-up leaves in order and is scattered in place. */
    method Find(start: Key, basket: array<Option<LeafId>>) returns (hits: int)
      requires WellFormed(View()) && start < TWO64 && basket.Length < 0x1_0000_0000
      modifies this, basket
      ensures Placed(old(View()))
      ensures start + basket.Length < TWO64 ==>
                && View() == TouchRange(old(View()), start, basket.Length)
                && (WellFormed(View()) <==> old(Room(View(), start, basket.Length)))
                && hits == |Hits(old(tree), start, basket.Length)|
                && forall m :: 0 <= m < basket.Length ==>
                     basket[m] == if start + m in old(tree) then Some(old(tree)[start + m]) else None
      ensures start + basket.Length >= TWO64 ==>
                View() == old(View()) && hits == 0 && forall m :: 0 <= m < basket.Length ==> basket[m].None?
    {
      hide FindAt, TouchedSoFar, Unplaced, WellFormed, Placed, Room, Gang, Scattered, TouchRange, Hits, Touch;
      var count := basket.Length;
      ghost var s0 := View();
      TouchRangeExactly(s0, start, count);
      var keys := GangLookup(tree, start, count);
      LoadBasket(keys, basket, start);
      hits := 0;
      var retOff: Key := (start + count) % TWO64;
      ghost var wraps := start + count >= TWO64;
      var i := |keys|;
      if wraps { UnplacedBegin(s0, basket[..], keys, start); } else { FindBegin(s0, basket[..], keys, start); }
      while i > 0
        invariant 0 <= i <= |keys|
        invariant !wraps ==> FindAt(View(), basket[..], keys, start, i, retOff)
        invariant !wraps ==> TouchedSoFar(s0, View(), start, count, retOff, hits)
        invariant wraps ==> Unplaced(View(), basket[..], i) && retOff < start && View() == s0 && hits == 0
        decreases i
      {
        if wraps { UnplacedNext(View(), basket[..], i); } else { FindNext(View(), basket[..], keys, start, i, retOff); }
        i := i - 1;
        assert basket[i] == basket[..][i];
        if basket[i].None? { continue; }
        var l := basket[i].value;
        var j := mem[l].blkid;
        if j >= start && j < retOff && !IsDelete(mem[l].word) {
          Place(basket, i, j - start, l);
          TouchLeaf(l);
          retOff := j;
          hits := hits + 1;
        } else {
          basket[i] := None;
        }
      }
      if wraps {
        UnplacedEnd(View(), basket[..]);
      } else {
        FindFinish(s0, View(), basket[..], keys, start, retOff, hits);
      }
    }

    /** `cache_put`: gives back one reference on every leaf of the basket. */
    method PutBack(basket: array<Option<LeafId>>)
      requires Puttable(View(), basket[..])
      modifies this
      ensures View() == Put(old(View()), basket[..])
    {
      hide Unref;
      ghost var s0 := View();
      for i := 0 to basket.Length
        invariant Puttable(View(), basket[i..])
        invariant Put(s0, basket[..]) == Put(View(), basket[i..])
      {
        assert basket[i..][0] == basket[i] && basket[i..][1..] == basket[i + 1..];
        if basket[i].None? { continue; }
        UnrefLeaf(basket[i].value);
      }
    }

    method UnrefLeaf(l: LeafId)
      requires l in mem
      modifies this
      ensures View() == Unref(old(View()), l)
    {
      var w := Dec(mem[l].word);
      mem := mem[l := mem[l].(word := w)];
      if !IsDelete(w) { return; }
      if RefCount(w) > 0 { return; }
      Release(l);
    }

    /** `cache_invalidate_volLB`. */
    method InvalidateRange(start: Key, count: nat)
      requires WellFormed(View())
      modifies this
      ensures View() == Invalidate(old(View()), start, count)
    {
      hide WellFormed, Detach;
      ghost var s0 := View();
      for i := 0 to count
        invariant WellFormed(View())
        invariant Invalidate(s0, start, count) == Invalidate(View(), start + i, count - i)
      {
        var key := start + i;
        CachedKey(View(), key);
        if key !in tree { continue; }
        var l := tree[key];
        DetachWellFormed(View(), l, true);
        DetachLeaf(l, true);
      }
    }

    method DetachLeaf(l: LeafId, delist: bool)
      requires l in mem
      modifies this
      ensures View() == Detach(old(View()), l, delist)
    {
      tree := tree - {mem[l].blkid};
      if delist {
        RemoveHbid(mem[l].blkid, mem[l].data.hbid);
      }
      UnlinkLeaf(l);
    }

    /** This pool's part of `cache_invalidate_by_HBID`. */
    method InvalidateByHbid(h: Hbid)
      requires WellFormed(View())
      modifies this
      ensures View() == InvalidateHbid(old(View()), h)
    {
      if h !in index { return; }
      var keys := index[h];
      IndexOnly(View(), index - {h});
      index := index - {h};
      hide WellFormed, Detach;
      ghost var s1 := View();
      for i := 0 to |keys|
        invariant WellFormed(View())
        invariant DropKeys(s1, keys) == DropKeys(View(), keys[i..])
      {
        assert keys[i..][0] == keys[i] && keys[i..][1..] == keys[i + 1..];
        CachedKey(View(), keys[i]);
        if keys[i] !in tree { continue; }
        var l := tree[keys[i]];
        DetachWellFormed(View(), l, false);
        DetachLeaf(l, false);
      }
    }

    /** `cache_update`: `fates` are the outcomes of the leaf allocation and tree insertion. The
        returned code is that of the last item only. */
    method UpdateItems(start: Key, items: seq<Item>, fates: seq<Fate>) returns (code: Code)
      requires WellFormed(View()) && |items| == |fates|
      modifies this
      ensures View() == Update(old(View()), start, items, fates)
      ensures code == UpdateCode(old(View()), fates)
      ensures code.TooBigCode? <==> |items| > old(cacheSize) || old(cacheSize) == 0
    {
      hide WellFormed, UpdateOne, Kick, ToInt32;
      var count := |items|;
      if count > cacheSize || cacheSize == 0 { return TooBigCode; }
      ghost var s0 := View();
      var n := ToInt32(cacheNum + count - cacheSize);
      if n > ToInt32(cacheSize) { n := ToInt32(cacheSize); }
      if n > 0 {
        var _ := KickMeta(n, All);
      }
      ghost var s1 := View();
      assert s1 == Reclaim(s0, count);
      code := Ok;
      for i := 0 to count
        invariant WellFormed(View())
        invariant UpdateAll(s1, start, items, fates) == UpdateAll(View(), start + i, items[i..], fates[i..])
        invariant code == if i == 0 then Ok else FateCode(fates[i - 1])
      {
        assert items[i..][0] == items[i] && items[i..][1..] == items[i + 1..];
        assert fates[i..][0] == fates[i] && fates[i..][1..] == fates[i + 1..];
        code := StoreOne(start + i, items[i], fates[i]);
      }
    }

    method StoreOne(key: Key, item: Item, fate: Fate) returns (code: Code)
      requires WellFormed(View())
      modifies this
      ensures WellFormed(View()) && View() == UpdateOne(old(View()), key, item, fate)
      ensures code == FateCode(fate)
    {
      hide WellFormed, Insert, InsertFresh, Unlink, ReleaseLeaf, UpdateOne, Enlist;
      CachedKey(View(), key);
      ghost var s0 := View();
      ghost var r := UpdateOne(s0, key, item, fate);
      StoredIs(s0, key, item);
      RefusedIs(s0, key, item);
      if fate.NoMemory? { return NoMemoryCode; }
      var leaf := AllocLeaf(key, item);
      if fate.Refused? {
        Release(leaf);
        return RefusedCode;
      }
      var displaced := if key in tree then Some(tree[key]) else None;
      tree := tree[key := leaf];
      InsertHbid(key, item.hbid);
      lru := [leaf] + lru;
      cacheNum := cacheNum + 1;
      if displaced.Some? {
        UnlinkLeaf(displaced.value);
      }
      code := Ok;
    }

    method AllocLeaf(key: Key, item: Item) returns (leaf: LeafId)
      modifies this
      ensures leaf == old(nextId)
      ensures View() == old(View()).(mem := old(mem)[leaf := Leaf(item, key, 0)], nextId := leaf + 1,
                                     leafCnt := old(leafCnt) + 1)
    {
      leafCnt := leafCnt + 1;
      leaf := nextId;
      mem := mem[leaf := Leaf(item, key, 0)];
      nextId := nextId + 1;
    }

    /** `kick_meta_cache` for one volume: retry without the condition while a removed leaf was
        still referenced. The second pass always ends it. */
    method KickVolume(cmp: Item -> bool)
      requires WellFormed(View())
      modifies this
      ensures WellFormed(View()) && View() == ConditionalInvalidate(old(View()), cmp)
    {
      hide WellFormed, Kick, HeldMatch;
      ghost var s0 := View();
      var again := KickMeta(-1, cmp);
      ghost var s1 := View();
      ghost var held := again;
      ghost var s2 := Kick(s1, |s1.lru|, None, All);
      SweepsAll(s1);
      KickEnd(s2, 0, None, All);
      for j := 0 to MAX_RETRY
        invariant WellFormed(View())
        invariant View() == if j > 0 && held then s2 else s1
        invariant j == 0 ==> again == held
        invariant !held ==> !again
      {
        if !again { break; }
        again := KickMeta(-1, All);
      }
    }
  }
}
