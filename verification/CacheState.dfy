/** The metadata cache pool of one volume as a value: a tree of leaves by block number, the
    LRU list, the leaf memory with its reference words, and the HBID reverse index.
    The functions are the effect of each critical section on the whole pool. */
module CacheState {
  import opened Wrappers
  import opened Seqs
  import opened MachineInts
  import opened LeafWord

  type Key = nat
  type Hbid = nat
  type LeafId = nat

  /** A cached metadata item; only its HBID is looked at by the cache. */
  datatype Item = Item(hbid: Hbid, payload: nat)

  datatype Leaf = Leaf(data: Item, blkid: Key, word: Word)

  /** `lru[0]` is the list head (most recently used). `mem` is the allocated leaves: a leaf is
      addressed by an id that is never given out twice, and `released` logs the ids handed to
      the item free function, in order. `leafCnt` is this pool's share of the allocation
      counter. */
  datatype Pool = Pool(
    tree: map<Key, LeafId>,
    lru: seq<LeafId>,
    cacheNum: int,
    cacheSize: Word,
    mem: map<LeafId, Leaf>,
    nextId: LeafId,
    leafCnt: int,
    released: seq<LeafId>,
    index: map<Hbid, seq<Key>>)

  function EmptyPool(cacheSize: Word): Pool {
    Pool(map[], [], 0, cacheSize, map[], 0, 0, [], map[])
  }

  // ---------------------------------------------------------------- HBID index

  /** List `key` under `hbid` unless it already is. */
  function Enlist(index: map<Hbid, seq<Key>>, key: Key, hbid: Hbid): map<Hbid, seq<Key>> {
    if hbid !in index then index[hbid := [key]]
    else if key in index[hbid] then index
    else index[hbid := index[hbid] + [key]]
  }

  /** Take `key` off the list of `hbid`; a list that becomes empty goes too. */
  function Delist(index: map<Hbid, seq<Key>>, key: Key, hbid: Hbid): map<Hbid, seq<Key>> {
    if hbid !in index then index
    else
      var rest := Without(index[hbid], key);
      if rest == [] then index - {hbid} else index[hbid := rest]
  }

  // ---------------------------------------------------------------- single leaves

  /** `release_tree_leaf`: refuses a leaf that is still referenced. */
  function ReleaseLeaf(s: Pool, l: LeafId): Pool
    requires l in s.mem
  {
    if RefCount(s.mem[l].word) > 0 then s
    else s.(mem := s.mem - {l}, leafCnt := s.leafCnt - 1, released := s.released + [l])
  }

  /** A leaf that has left the tree goes off the LRU list and is released, or marked deleted
      when someone still holds it. */
  function Unlink(s: Pool, l: LeafId): Pool
    requires l in s.mem
  {
    var s1 := s.(lru := Without(s.lru, l), cacheNum := s.cacheNum - 1);
    if RefCount(s.mem[l].word) > 0
    then s1.(mem := s.mem[l := s.mem[l].(word := SetDelete(s.mem[l].word))])
    else ReleaseLeaf(s1, l)
  }

  /** Remove a cached leaf. Invalidation by HBID has already emptied that index list and so
      leaves the index alone. */
  function Detach(s: Pool, l: LeafId, delist: bool): Pool
    requires l in s.mem
  {
    var leaf := s.mem[l];
    Unlink(s.(tree := s.tree - {leaf.blkid},
              index := if delist then Delist(s.index, leaf.blkid, leaf.data.hbid) else s.index),
           l)
  }

  /** A new leaf for `key`, at the front of the LRU list. */
  function InsertFresh(s: Pool, key: Key, item: Item): Pool {
    s.(tree := s.tree[key := s.nextId],
       mem := s.mem[s.nextId := Leaf(item, key, 0)],
       nextId := s.nextId + 1,
       leafCnt := s.leafCnt + 1,
       lru := [s.nextId] + s.lru,
       cacheNum := s.cacheNum + 1,
       index := Enlist(s.index, key, item.hbid))
  }

  /** Insert a new leaf for `key`; a displaced leaf is unlinked. */
  function Insert(s: Pool, key: Key, item: Item): Pool
    requires key in s.tree ==> s.tree[key] in s.mem && s.tree[key] != s.nextId
  {
    var s1 := InsertFresh(s, key, item);
    if key in s.tree then Unlink(s1, s.tree[key]) else s1
  }

  /** A hit: one more reference, and to the front of the LRU list. */
  function Touch(s: Pool, l: LeafId): Pool
    requires l in s.mem
  {
    s.(mem := s.mem[l := s.mem[l].(word := Inc(s.mem[l].word))],
       lru := [l] + Without(s.lru, l))
  }

  /** Give one reference back; the last holder of a deleted leaf releases it. */
  function Unref(s: Pool, l: LeafId): Pool
    requires l in s.mem
  {
    var w := Dec(s.mem[l].word);
    var s1 := s.(mem := s.mem[l := s.mem[l].(word := w)]);
    if IsDelete(w) && RefCount(w) == 0 then ReleaseLeaf(s1, l) else s1
  }

  // ---------------------------------------------------------------- well-formed pools

  /** Tree and LRU list hold the same leaves, one per key, none of them marked deleted. */
  ghost predicate Linked(s: Pool) {
    && NoDup(s.lru)
    && (forall k :: k in s.tree ==>
          s.tree[k] in s.mem && s.tree[k] in s.lru && s.mem[s.tree[k]].blkid == k)
    && (forall l :: l in s.lru ==>
          l in s.mem && s.mem[l].blkid in s.tree && s.tree[s.mem[l].blkid] == l
          && !IsDelete(s.mem[l].word))
  }

  /** Allocated memory is exactly the cached leaves and the leaves that are deleted but still
      held; every id given out so far is either allocated or was released exactly once. */
  ghost predicate Accounted(s: Pool) {
    && (forall l :: l in s.mem ==>
          l < s.nextId && (l in s.lru || (IsDelete(s.mem[l].word) && RefCount(s.mem[l].word) > 0)))
    && NoDup(s.released)
    && (forall l: LeafId :: l in s.released <==> l < s.nextId && l !in s.mem)
  }

  ghost predicate Counted(s: Pool) {
    s.cacheNum == |s.lru| && s.leafCnt == |s.mem|
  }

  ghost predicate WellFormed(s: Pool) {
    Linked(s) && Accounted(s) && Counted(s)
  }

  /** Every cached key has a leaf of its own, on the LRU list: all that a lookup relies on. */
  ghost predicate Placed(s: Pool) {
    && NoDup(s.lru)
    && forall k :: k in s.tree ==> s.tree[k] in s.mem && s.tree[k] in s.lru && s.mem[s.tree[k]].blkid == k
  }

  lemma WellFormedPlaced(s: Pool)
    requires WellFormed(s)
    ensures Placed(s)
  {
  }

  /** The tree holds exactly `cacheNum` keys. */
  lemma TreeSize(s: Pool)
    requires WellFormed(s)
    ensures |s.tree| == s.cacheNum
  {
    var keys := seq(|s.lru|, i requires 0 <= i < |s.lru| => s.mem[s.lru[i]].blkid);
    forall k ensures k in keys <==> k in s.tree.Keys {
      if k in s.tree {
        var i := Cover(s.lru, s.tree[k]);
        assert keys[i] == k;
      }
    }
    NoDupCard(keys, s.tree.Keys);
  }

  lemma ReleaseLeafWellFormed(s: Pool, l: LeafId)
    requires l in s.mem && RefCount(s.mem[l].word) == 0 && l !in s.lru
    requires Linked(s) && s.cacheNum == |s.lru| && s.leafCnt == |s.mem|
    requires forall m :: m in s.mem && m != l ==>
               m < s.nextId && (m in s.lru || (IsDelete(s.mem[m].word) && RefCount(s.mem[m].word) > 0))
    requires l < s.nextId && NoDup(s.released)
    requires forall m: LeafId :: m in s.released <==> m < s.nextId && m !in s.mem
    ensures WellFormed(ReleaseLeaf(s, l))
  {
    var r := ReleaseLeaf(s, l);
    assert r.mem.Keys == s.mem.Keys - {l};
    forall m: LeafId ensures m in r.released <==> m < r.nextId && m !in r.mem {
      assert m in r.released <==> m in s.released || m == l;
    }
  }

  /** What a removal does to a pool, without saying where the removed leaf's memory went. */
  ghost predicate Removed(s: Pool, r: Pool, l: LeafId)
    requires l in s.mem
  {
    && r.tree == s.tree - {s.mem[l].blkid}
    && r.lru == Without(s.lru, l)
    && r.cacheNum == s.cacheNum - 1
    && r.nextId == s.nextId
    && (forall m :: m != l && m in s.mem ==> m in r.mem && r.mem[m] == s.mem[m])
    && (forall m :: m in r.mem ==> m in s.mem)
  }

  lemma LinkedKey(s: Pool, k: Key)
    requires Linked(s) && k in s.tree
    ensures s.tree[k] in s.mem && s.tree[k] in s.lru && s.mem[s.tree[k]].blkid == k
  {
  }

  lemma LinkedLeaf(s: Pool, l: LeafId)
    requires Linked(s) && l in s.lru
    ensures l in s.mem && s.mem[l].blkid in s.tree && s.tree[s.mem[l].blkid] == l && !IsDelete(s.mem[l].word)
  {
  }

  lemma RemovedLinks(s: Pool, r: Pool, l: LeafId)
    requires Linked(s) && NoDup(s.lru) && l in s.lru && l in s.mem && Removed(s, r, l)
    ensures NoDup(r.lru) && |r.lru| == |s.lru| - 1
    ensures forall m :: m in r.lru <==> m in s.lru && m != l
    ensures forall k :: k in r.tree ==> r.tree[k] in r.mem && r.tree[k] in r.lru && r.mem[r.tree[k]].blkid == k
    ensures forall m :: m in r.lru ==>
              m in r.mem && r.mem[m].blkid in r.tree && r.tree[r.mem[m].blkid] == m && !IsDelete(r.mem[m].word)
  {
    WithoutMember(s.lru, l);
    hide Without, NoDup, Linked;
    LinkedLeaf(s, l);
    forall k | k in r.tree ensures r.tree[k] in r.mem && r.tree[k] in r.lru && r.mem[r.tree[k]].blkid == k {
      LinkedKey(s, k);
    }
    forall m | m in r.lru
      ensures m in r.mem && r.mem[m].blkid in r.tree && r.tree[r.mem[m].blkid] == m && !IsDelete(r.mem[m].word)
    {
      LinkedLeaf(s, m);
    }
  }

  lemma RemovedLinked(s: Pool, r: Pool, l: LeafId)
    requires Linked(s) && l in s.lru && Removed(s, r, l)
    ensures Linked(r) && l !in r.lru && |r.lru| == |s.lru| - 1
    ensures forall m :: m in r.lru <==> m in s.lru && m != l
  {
    RemovedLinks(s, r, l);
  }

  lemma DetachEffect(s: Pool, l: LeafId, delist: bool)
    requires l in s.mem
    ensures var r := Detach(s, l, delist);
            && Removed(s, r, l)
            && r.cacheSize == s.cacheSize
            && if RefCount(s.mem[l].word) > 0
               then && r.mem.Keys == s.mem.Keys
                    && r.mem[l] == s.mem[l].(word := SetDelete(s.mem[l].word))
                    && r.released == s.released && r.leafCnt == s.leafCnt
               else && r.mem.Keys == s.mem.Keys - {l}
                    && r.released == s.released + [l] && r.leafCnt == s.leafCnt - 1
  {
  }

  lemma DetachWellFormed(s: Pool, l: LeafId, delist: bool)
    requires WellFormed(s) && l in s.lru
    ensures WellFormed(Detach(s, l, delist))
  {
    var r := Detach(s, l, delist);
    DetachEffect(s, l, delist);
    RemovedLinked(s, r, l);
    SetDeleteKeepsCount(s.mem[l].word);
    forall m: LeafId ensures m in r.released <==> m < r.nextId && m !in r.mem {
      assert m in r.released <==> m in s.released || (m == l && RefCount(s.mem[l].word) == 0);
    }
    assert |s.mem.Keys - {l}| == |s.mem| - 1;
  }

  lemma InsertFreshLinked(s: Pool, key: Key, item: Item)
    requires Linked(s) && key !in s.tree && s.nextId !in s.mem
    ensures Linked(InsertFresh(s, key, item))
    ensures forall l :: l in InsertFresh(s, key, item).lru <==> l == s.nextId || l in s.lru
  {
    var r := InsertFresh(s, key, item);
    assert forall l :: l in r.lru <==> l == s.nextId || l in s.lru;
  }

  lemma InsertFreshWellFormed(s: Pool, key: Key, item: Item)
    requires WellFormed(s) && key !in s.tree
    ensures WellFormed(InsertFresh(s, key, item))
  {
    var r := InsertFresh(s, key, item);
    assert s.nextId !in s.mem;
    InsertFreshLinked(s, key, item);
    hide Linked;
    assert r.mem.Keys == s.mem.Keys + {s.nextId};
  }

  /** Displacing a leaf is the same as removing it first and then inserting. */
  lemma InsertDisplaces(s: Pool, key: Key, item: Item)
    requires key in s.tree && s.tree[key] in s.mem && s.mem[s.tree[key]].blkid == key
    requires s.nextId !in s.mem
    ensures Insert(s, key, item) == InsertFresh(Detach(s, s.tree[key], false), key, item)
  {
    var l := s.tree[key];
    var a, b := Insert(s, key, item), InsertFresh(Detach(s, l, false), key, item);
    assert Without([s.nextId] + s.lru, l) == [s.nextId] + Without(s.lru, l) by {
      assert ([s.nextId] + s.lru)[1..] == s.lru;
    }
    assert a.tree == b.tree;
    assert a.mem == b.mem;
  }

  lemma InsertWellFormed(s: Pool, key: Key, item: Item)
    requires WellFormed(s)
    ensures WellFormed(Insert(s, key, item))
  {
    if key in s.tree {
      InsertDisplaces(s, key, item);
      DetachWellFormed(s, s.tree[key], false);
      InsertFreshWellFormed(Detach(s, s.tree[key], false), key, item);
    } else {
      InsertFreshWellFormed(s, key, item);
    }
  }

  lemma TouchWellFormed(s: Pool, l: LeafId)
    requires WellFormed(s) && l in s.lru && RefCount(s.mem[l].word) < DELETE_BIT - 1
    ensures WellFormed(Touch(s, l))
    ensures forall m :: m in Touch(s, l).lru <==> m in s.lru
  {
    WithoutMember(s.lru, l);
    IncExact(s.mem[l].word);
    var r := Touch(s, l);
    assert r.mem.Keys == s.mem.Keys;
    assert forall m :: m in r.lru <==> m in s.lru;
    assert Linked(r);
  }

  /** A touch keeps the leaves in place, whatever the count. */
  lemma TouchPlaced(s: Pool, l: LeafId)
    requires Placed(s) && l in s.lru && l in s.mem
    ensures Placed(Touch(s, l))
    ensures forall m :: m in Touch(s, l).lru <==> m in s.lru
  {
    WithoutMember(s.lru, l);
    var r := Touch(s, l);
    hide Inc;
    assert forall m :: m in r.lru <==> m in s.lru;
  }

  lemma UnrefWellFormed(s: Pool, l: LeafId)
    requires WellFormed(s) && l in s.mem && RefCount(s.mem[l].word) > 0
    ensures WellFormed(Unref(s, l))
  {
    var w := Dec(s.mem[l].word);
    DecExact(s.mem[l].word);
    var s1 := s.(mem := s.mem[l := s.mem[l].(word := w)]);
    assert s1.mem.Keys == s.mem.Keys;
    assert Linked(s1);
    if IsDelete(w) && RefCount(w) == 0 {
      ReleaseLeafWellFormed(s1, l);
    }
  }
}
