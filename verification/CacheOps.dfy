/** Whole cache operations as functions of the pool, and what each does to the cached
    contents, the LRU order, the reference words and the HBID index. */
module CacheOps {
  import opened Wrappers
  import opened Seqs
  import opened MachineInts
  import opened LeafWord
  import opened CacheState

  /** What a lookup can serve: the item cached under each key. */
  ghost function Contents(s: Pool): map<Key, Item>
    requires WellFormed(s)
  {
    map k | k in s.tree :: s.mem[s.tree[k]].data
  }

  /** `held[l]` outstanding references on leaf `l`: exactly the count in its word. */
  ghost predicate RefsMatch(s: Pool, held: multiset<LeafId>) {
    && (forall l :: l in s.mem ==> RefCount(s.mem[l].word) == held[l])
    && (forall l :: l in held ==> l in s.mem)
  }

  ghost predicate Listed(s: Pool, k: Key)
    requires k in s.tree && s.tree[k] in s.mem
  {
    var h := s.mem[s.tree[k]].data.hbid;
    h in s.index && k in s.index[h]
  }

  /** Every cached key is listed under the HBID of its item; stale listings are allowed. */
  ghost predicate Indexed(s: Pool) {
    && (forall h :: h in s.index ==> NoDup(s.index[h]))
    && (forall k :: k in s.tree ==> s.tree[k] in s.mem && Listed(s, k))
  }

  ghost predicate Sound(s: Pool, held: multiset<LeafId>) {
    WellFormed(s) && RefsMatch(s, held) && Indexed(s)
  }

  // ---------------------------------------------------------------- single leaves

  /** Facts about a well-formed pool that the folds below need. */
  lemma CachedLeaf(s: Pool, l: LeafId)
    requires WellFormed(s) && l in s.lru
    ensures l in s.mem && s.mem[l].blkid in s.tree && s.tree[s.mem[l].blkid] == l
    ensures s.cacheNum == |s.lru|
    ensures s.mem[l].blkid in Contents(s) && Contents(s)[s.mem[l].blkid] == s.mem[l].data
  {
  }

  lemma CachedKey(s: Pool, k: Key)
    requires WellFormed(s)
    ensures s.cacheNum == |s.lru| && s.nextId !in s.mem
    ensures k in s.tree <==> k in Contents(s)
    ensures k in s.tree ==> s.tree[k] in s.lru && s.tree[k] in s.mem && s.mem[s.tree[k]].blkid == k
    ensures k in s.tree ==> Contents(s)[k] == s.mem[s.tree[k]].data
  {
  }

  lemma DetachContents(s: Pool, l: LeafId, delist: bool)
    requires WellFormed(s) && l in s.lru
    ensures WellFormed(Detach(s, l, delist))
    ensures Contents(Detach(s, l, delist)) == Contents(s) - {s.mem[l].blkid}
  {
    hide WellFormed, Detach;
    CachedLeaf(s, l);
    DetachWellFormed(s, l, delist);
    DetachEffect(s, l, delist);
    var r := Detach(s, l, delist);
    forall k
      ensures (k in Contents(r) <==> k in r.tree)
      ensures (k in r.tree ==> k in Contents(s) && Contents(r)[k] == Contents(s)[k])
    {
      CachedKey(s, k);
      CachedKey(r, k);
    }
    assert Contents(r).Keys == Contents(s).Keys - {s.mem[l].blkid};
  }

  lemma DetachRefs(s: Pool, held: multiset<LeafId>, l: LeafId, delist: bool)
    requires l in s.mem && RefsMatch(s, held)
    ensures RefsMatch(Detach(s, l, delist), held)
  {
    DetachEffect(s, l, delist);
    SetDeleteKeepsCount(s.mem[l].word);
    hide Detach;
  }

  lemma DetachSound(s: Pool, held: multiset<LeafId>, l: LeafId, delist: bool)
    requires WellFormed(s) && RefsMatch(s, held) && l in s.lru
    ensures var r := Detach(s, l, delist);
            && WellFormed(r) && RefsMatch(r, held)
            && r.tree == s.tree - {s.mem[l].blkid}
            && r.cacheNum == s.cacheNum - 1 && r.cacheSize == s.cacheSize
            && Contents(r) == Contents(s) - {s.mem[l].blkid}
            && (Indexed(s) ==> Indexed(r))
            && (!delist ==> r.index == s.index)
  {
    CachedLeaf(s, l);
    DetachEffect(s, l, delist);
    DetachContents(s, l, delist);
    DetachRefs(s, held, l, delist);
    hide WellFormed;
    if Indexed(s) {
      DetachIndexed(s, l, delist);
    }
  }

  lemma DelistKeeps(index: map<Hbid, seq<Key>>, key: Key, hbid: Hbid)
    requires forall h :: h in index ==> NoDup(index[h])
    ensures var r := Delist(index, key, hbid);
            && (forall h :: h in r ==> NoDup(r[h]))
            && (forall h, k :: h in index && k in index[h] && !(h == hbid && k == key) ==> h in r && k in r[h])
  {
    if hbid in index {
      WithoutMember(index[hbid], key);
    }
  }

  /** `key` is listed under `hbid`. */
  predicate Lists(index: map<Hbid, seq<Key>>, hbid: Hbid, key: Key) { hbid in index && key in index[hbid] }

  /** No listing repeats a key and none is empty. */
  ghost predicate Tidy(index: map<Hbid, seq<Key>>) { forall h :: h in index ==> NoDup(index[h]) && index[h] != [] }

  lemma EnlistExact(index: map<Hbid, seq<Key>>, key: Key, hbid: Hbid)
    ensures forall h, k :: Lists(Enlist(index, key, hbid), h, k) <==> Lists(index, h, k) || (h == hbid && k == key)
    ensures Tidy(index) ==> Tidy(Enlist(index, key, hbid))
  {
  }

  lemma DelistExact(index: map<Hbid, seq<Key>>, key: Key, hbid: Hbid)
    requires Tidy(index)
    ensures forall h, k :: Lists(Delist(index, key, hbid), h, k) <==> Lists(index, h, k) && !(h == hbid && k == key)
    ensures Tidy(Delist(index, key, hbid))
  {
    if hbid in index { WithoutMember(index[hbid], key); }
  }

  lemma DetachIndexed(s: Pool, l: LeafId, delist: bool)
    requires WellFormed(s) && l in s.lru && Indexed(s)
    ensures Indexed(Detach(s, l, delist))
  {
    var r := Detach(s, l, delist);
    var leaf := s.mem[l];
    DetachEffect(s, l, delist);
    DelistKeeps(s.index, leaf.blkid, leaf.data.hbid);
    hide Accounted;
    forall k | k in r.tree ensures r.tree[k] in r.mem && Listed(r, k) {
      assert k in s.tree && k != leaf.blkid && s.tree[k] != l;
      assert Listed(s, k);
    }
  }

  lemma InsertFreshIndexed(s: Pool, key: Key, item: Item)
    requires Indexed(s) && s.nextId !in s.mem
    ensures Indexed(InsertFresh(s, key, item))
  {
    var r := InsertFresh(s, key, item);
    forall k | k in r.tree ensures r.tree[k] in r.mem && Listed(r, k) {
      if k != key {
        assert Listed(s, k) && r.mem[r.tree[k]] == s.mem[s.tree[k]];
      }
    }
  }

  lemma InsertFreshContents(s: Pool, key: Key, item: Item)
    requires WellFormed(s) && key !in s.tree
    ensures WellFormed(InsertFresh(s, key, item))
    ensures Contents(InsertFresh(s, key, item)) == Contents(s)[key := item]
  {
    hide WellFormed, Contents;
    var r := InsertFresh(s, key, item);
    InsertFreshWellFormed(s, key, item);
    forall k ensures k in Contents(r) <==> k in Contents(s)[key := item]
             ensures k in Contents(r) ==> Contents(r)[k] == Contents(s)[key := item][k] {
      CachedKey(s, k);
      CachedKey(r, k);
    }
  }

  lemma InsertFreshSound(s: Pool, held: multiset<LeafId>, key: Key, item: Item)
    requires Sound(s, held) && key !in s.tree
    ensures Sound(InsertFresh(s, key, item), held)
    ensures Contents(InsertFresh(s, key, item)) == Contents(s)[key := item]
  {
    assert s.nextId !in s.mem && s.nextId !in held;
    InsertFreshContents(s, key, item);
    hide WellFormed;
    InsertFreshIndexed(s, key, item);
    hide Indexed;
  }

  lemma InsertNew(s: Pool, key: Key, item: Item)
    requires key !in s.tree
    ensures Insert(s, key, item) == InsertFresh(s, key, item)
  {
  }

  /** Inserting serves the new item from then on and changes no other key. */
  lemma InsertSound(s: Pool, held: multiset<LeafId>, key: Key, item: Item)
    requires Sound(s, held)
    ensures Sound(Insert(s, key, item), held)
    ensures Contents(Insert(s, key, item)) == Contents(s)[key := item]
  {
    hide WellFormed, RefsMatch, Indexed, Contents, Insert, InsertFresh, Detach;
    CachedKey(s, key);
    if key in s.tree {
      var l := s.tree[key];
      InsertDisplaces(s, key, item);
      DetachSound(s, held, l, false);
      InsertFreshSound(Detach(s, l, false), held, key, item);
      assert Contents(s)[key := item] == (Contents(s) - {key})[key := item];
    } else {
      InsertNew(s, key, item);
      InsertFreshSound(s, held, key, item);
    }
  }

  lemma TouchSound(s: Pool, held: multiset<LeafId>, l: LeafId)
    requires Sound(s, held) && l in s.lru && RefCount(s.mem[l].word) < DELETE_BIT - 1
    ensures Sound(Touch(s, l), held + multiset{l})
    ensures Contents(Touch(s, l)) == Contents(s)
    ensures var r := Touch(s, l); r.tree == s.tree && r.cacheNum == s.cacheNum && r.cacheSize == s.cacheSize
  {
    TouchWellFormed(s, l);
    hide WellFormed;
    TouchRefs(s, held, l);
    TouchIndexed(s, l);
    assert Contents(Touch(s, l)) == Contents(s);
  }

  lemma TouchRefs(s: Pool, held: multiset<LeafId>, l: LeafId)
    requires RefsMatch(s, held) && l in s.mem && RefCount(s.mem[l].word) < DELETE_BIT - 1
    ensures RefsMatch(Touch(s, l), held + multiset{l})
  {
    IncExact(s.mem[l].word);
    hide Inc, RefCount;
  }

  lemma TouchIndexed(s: Pool, l: LeafId)
    requires Indexed(s) && l in s.mem
    ensures Indexed(Touch(s, l))
  {
    hide Inc;
    var r := Touch(s, l);
    forall k | k in r.tree ensures r.tree[k] in r.mem && Listed(r, k) {
      assert Listed(s, k);
    }
  }

  lemma UnrefIndexed(s: Pool, l: LeafId)
    requires WellFormed(s) && Indexed(s) && l in s.mem && RefCount(s.mem[l].word) > 0
    ensures Indexed(Unref(s, l))
    ensures forall k :: k in s.tree ==>
              s.tree[k] in Unref(s, l).mem && Unref(s, l).mem[s.tree[k]].data == s.mem[s.tree[k]].data
    ensures Unref(s, l).tree == s.tree
  {
    var r := Unref(s, l);
    DecExact(s.mem[l].word);
    hide Accounted, Counted;
    forall k | k in r.tree ensures r.tree[k] in r.mem && Listed(r, k) {
      assert Listed(s, k);
    }
  }

  lemma UnrefSound(s: Pool, held: multiset<LeafId>, l: LeafId)
    requires Sound(s, held) && l in held
    ensures l in s.mem && RefCount(s.mem[l].word) > 0
    ensures var r := Unref(s, l);
            && Sound(r, held - multiset{l})
            && Contents(r) == Contents(s)
            && r.cacheNum == s.cacheNum && r.cacheSize == s.cacheSize
  {
    UnrefRefs(s, held, l);
    UnrefWellFormed(s, l);
    UnrefIndexed(s, l);
    hide WellFormed, RefsMatch, Unref;
    var r := Unref(s, l);
    assert forall k :: k in Contents(r) <==> k in Contents(s);
    assert Contents(r) == Contents(s);
  }

  lemma UnrefRefs(s: Pool, held: multiset<LeafId>, l: LeafId)
    requires RefsMatch(s, held) && l in held
    ensures l in s.mem && RefCount(s.mem[l].word) > 0
    ensures var r := Unref(s, l);
            && RefsMatch(r, held - multiset{l})
            && r.cacheNum == s.cacheNum && r.cacheSize == s.cacheSize
  {
    DecExact(s.mem[l].word);
  }

  // ---------------------------------------------------------------- kicking

  /** Scan the LRU list from position `i` towards the head, removing matching leaves until
      the quota (if any) is used up. */
  function Kick(s: Pool, i: nat, quota: Option<nat>, cmp: Item -> bool): (r: Pool)
    requires WellFormed(s) && i <= |s.lru|
    ensures WellFormed(r) && s.released <= r.released
    decreases i
  {
    if i == 0 || quota == Some(0) then s
    else
      var l := s.lru[i - 1];
      if !cmp(s.mem[l].data) then Kick(s, i - 1, quota, cmp)
      else
        DetachWellFormed(s, l, true);
        KickSplit(s, i);
        Kick(Detach(s, l, true), i - 1, Less(quota), cmp)
  }

  function Less(quota: Option<nat>): Option<nat>
    requires quota != Some(0)
  {
    match quota
    case None => None
    case Some(n) => Some(n - 1)
  }

  /** Removing the entry at `i - 1` leaves everything before it in place. */
  lemma KickSplit(s: Pool, i: nat)
    requires WellFormed(s) && 0 < i <= |s.lru|
    ensures Detach(s, s.lru[i - 1], true).lru == s.lru[..i - 1] + s.lru[i..]
  {
    var l := s.lru[i - 1];
    DetachEffect(s, l, true);
    var a, b := s.lru[..i - 1], s.lru[i - 1..];
    assert s.lru == a + b;
    WithoutConcat(a, b, l);
    assert l !in a;
    assert b[1..] == s.lru[i..];
  }

  const All: Item -> bool := _ => true

  /** Kicking only removes: it never changes what is served for a key it keeps, and without a
      quota it removes every matching key and no other. */
  lemma {:induction false} KickSound(s: Pool, held: multiset<LeafId>, i: nat, quota: Option<nat>, cmp: Item -> bool)
    requires Sound(s, held) && i <= |s.lru|
    ensures var r := Kick(s, i, quota, cmp);
            && Sound(r, held)
            && r.cacheSize == s.cacheSize
            && (forall k :: k in Contents(r) ==> k in Contents(s) && Contents(r)[k] == Contents(s)[k])
            && (forall k :: k in Contents(s) && k !in Contents(r) ==> cmp(Contents(s)[k]))
            && (quota.None? ==>
                  forall k :: k in Contents(r) && k in s.tree && s.tree[k] in s.lru[..i] ==> !cmp(Contents(r)[k]))
    decreases i
  {
    hide WellFormed, RefsMatch, Indexed, Contents, Detach;
    if i != 0 && quota != Some(0) {
      var l := s.lru[i - 1];
      CachedLeaf(s, l);
      forall k ensures (k in s.tree <==> k in Contents(s)) && (k in s.tree && s.tree[k] == l ==> k == s.mem[l].blkid) {
        CachedKey(s, k);
      }
      assert s.lru[..i] == s.lru[..i - 1] + [l];
      if !cmp(s.mem[l].data) {
        KickSound(s, held, i - 1, quota, cmp);
      } else {
        var t := Detach(s, l, true);
        DetachSound(s, held, l, true);
        KickSplit(s, i);
        KickSound(t, held, i - 1, Less(quota), cmp);
        assert t.lru[..i - 1] == s.lru[..i - 1];
      }
    } else {
      forall k ensures k in s.tree <==> k in Contents(s) {
        CachedKey(s, k);
      }
    }
  }

  /** Eviction takes exactly the `n` least recently used leaves. */
  lemma {:induction false} EvictsTail(s: Pool, n: nat)
    requires WellFormed(s)
    ensures Kick(s, |s.lru|, Some(n), All).lru == s.lru[..|s.lru| - Min(n, |s.lru|)]
    ensures Kick(s, |s.lru|, Some(n), All).cacheNum == s.cacheNum - Min(n, |s.lru|)
    decreases n
  {
    hide WellFormed, Detach;
    if n > 0 && s.lru != [] {
      var l := s.lru[|s.lru| - 1];
      CachedLeaf(s, l);
      KickSplit(s, |s.lru|);
      DetachWellFormed(s, l, true);
      DetachEffect(s, l, true);
      var t := Detach(s, l, true);
      assert t.lru == s.lru[..|s.lru| - 1];
      EvictsTail(t, n - 1);
      assert Kick(s, |s.lru|, Some(n), All) == Kick(t, |t.lru|, Some(n - 1), All);
    }
  }

  function Min(a: int, b: int): int { if a < b then a else b }

  /** An unconditional sweep leaves nothing cached. */
  lemma {:induction false} SweepsAll(s: Pool)
    requires WellFormed(s)
    ensures Kick(s, |s.lru|, None, All).lru == [] && Kick(s, |s.lru|, None, All).cacheNum == s.cacheNum - |s.lru|
    decreases |s.lru|
  {
    hide WellFormed, Detach;
    if s.lru != [] {
      var l := s.lru[|s.lru| - 1];
      CachedLeaf(s, l);
      KickSplit(s, |s.lru|);
      DetachWellFormed(s, l, true);
      DetachEffect(s, l, true);
      var t := Detach(s, l, true);
      assert t.lru == s.lru[..|s.lru| - 1];
      SweepsAll(t);
      assert Kick(s, |s.lru|, None, All) == Kick(t, |t.lru|, None, All);
    }
  }

  /** `__kick_meta_cache` with a count and no predicate: -1 removes everything, zero and other negative
      counts nothing. */
  function KickCount(s: Pool, n: int): (r: Pool)
    requires WellFormed(s)
    ensures WellFormed(r) && s.released <= r.released
  {
    if n == -1 then Kick(s, |s.lru|, None, All)
    else if n <= 0 then s
    else Kick(s, |s.lru|, Some(n), All)
  }

  /** What is left of the LRU list. */
  function Left(lru: seq<LeafId>, n: int): seq<LeafId> {
    if n == -1 then [] else if n <= 0 then lru else lru[..|lru| - Min(n, |lru|)]
  }

  lemma KickCountSound(s: Pool, held: multiset<LeafId>, n: int)
    requires Sound(s, held)
    ensures var r := KickCount(s, n);
            && Sound(r, held) && r.cacheSize == s.cacheSize && r.lru == Left(s.lru, n) && r.cacheNum == |Left(s.lru, n)|
            && forall k :: k in Contents(r) ==> k in Contents(s) && Contents(r)[k] == Contents(s)[k]
  {
    hide WellFormed, RefsMatch, Indexed, Contents, Kick;
    CachedKey(s, 0);
    if n == -1 {
      KickSound(s, held, |s.lru|, None, All);
      SweepsAll(s);
    } else if n > 0 {
      KickSound(s, held, |s.lru|, Some(n), All);
      EvictsTail(s, n);
    }
  }

  /** Leaves still referenced when they are swept out. */
  ghost predicate HeldMatch(s: Pool, i: nat, cmp: Item -> bool)
    requires WellFormed(s) && i <= |s.lru|
  {
    exists j :: 0 <= j < i && cmp(s.mem[s.lru[j]].data) && RefCount(s.mem[s.lru[j]].word) > 0
  }

  // ---------------------------------------------------------------- update

  /** What became of one item of an update: no memory for its leaf, refused by the tree, stored. */
  datatype Fate = NoMemory | Refused | Stored

  function UpdateOne(s: Pool, key: Key, item: Item, fate: Fate): (r: Pool)
    requires WellFormed(s)
    ensures WellFormed(r) && s.released <= r.released
  {
    match fate
    case NoMemory => s
    case Refused => // the new leaf is allocated and released again
      RefusedWellFormed(s);
      s.(nextId := s.nextId + 1, released := s.released + [s.nextId])
    case Stored => InsertWellFormed(s, key, item); Insert(s, key, item)
  }

  lemma RefusedWellFormed(s: Pool)
    requires WellFormed(s)
    ensures WellFormed(s.(nextId := s.nextId + 1, released := s.released + [s.nextId]))
  {
    var r := s.(nextId := s.nextId + 1, released := s.released + [s.nextId]);
    assert s.nextId !in s.released;
    forall m: LeafId ensures m in r.released <==> m < r.nextId && m !in r.mem {
      assert m in r.released <==> m in s.released || m == s.nextId;
    }
    assert Linked(r);
  }

  function UpdateAll(s: Pool, start: Key, items: seq<Item>, fates: seq<Fate>): (r: Pool)
    requires WellFormed(s) && |items| == |fates|
    ensures WellFormed(r) && s.released <= r.released
    decreases |items|
  {
    if items == [] then s
    else UpdateAll(UpdateOne(s, start, items[0], fates[0]), start + 1, items[1..], fates[1..])
  }

  /** The number of leaves an update asks to evict before it inserts, in signed 32 bits. */
  function EvictionNeed(cacheNum: int, count: nat, cacheSize: Word): int {
    Min(ToInt32(cacheNum + count - cacheSize), ToInt32(cacheSize))
  }

  /** Below 2^31 slots the need is the excess, capped at the size; from there on nothing is evicted. */
  lemma NeedIs(cacheNum: int, count: nat, cacheSize: Word)
    requires 0 <= cacheNum < TWO31 && count <= cacheSize
    ensures cacheSize < TWO31 ==>
              EvictionNeed(cacheNum, count, cacheSize) == Min(cacheNum + count - cacheSize, cacheSize)
    ensures cacheSize >= TWO31 ==> EvictionNeed(cacheNum, count, cacheSize) < 0
  {
  }

  predicate TooBig(s: Pool, count: nat) { count > s.cacheSize || s.cacheSize == 0 }

  function Reclaim(s: Pool, count: nat): (r: Pool)
    requires WellFormed(s)
    ensures WellFormed(r) && s.released <= r.released
  {
    var n := EvictionNeed(s.cacheNum, count, s.cacheSize);
    if n > 0 then Kick(s, |s.lru|, Some(n), All) else s
  }

  function Update(s: Pool, start: Key, items: seq<Item>, fates: seq<Fate>): (r: Pool)
    requires WellFormed(s) && |items| == |fates|
    ensures WellFormed(r) && s.released <= r.released
  {
    if TooBig(s, |items|) then s else UpdateAll(Reclaim(s, |items|), start, items, fates)
  }

  /** The plain map an update stands for: later items of the same call cannot collide. */
  ghost function Store(m: map<Key, Item>, start: Key, items: seq<Item>, fates: seq<Fate>): map<Key, Item>
    requires |items| == |fates|
    decreases |items|
  {
    if items == [] then m
    else Store(if fates[0].Stored? then m[start := items[0]] else m, start + 1, items[1..], fates[1..])
  }

  lemma UpdateOneSound(s: Pool, held: multiset<LeafId>, key: Key, item: Item, fate: Fate)
    requires Sound(s, held)
    ensures var r := UpdateOne(s, key, item, fate);
            && Sound(r, held)
            && Contents(r) == (if fate.Stored? then Contents(s)[key := item] else Contents(s))
            && s.cacheNum <= r.cacheNum <= s.cacheNum + 1
            && r.cacheSize == s.cacheSize
  {
    hide WellFormed, RefsMatch, Indexed, Contents, Insert;
    match fate
    case NoMemory =>
    case Refused => RefusedSound(s, held, key, item);
    case Stored =>
      InsertSound(s, held, key, item);
      InsertSize(s, key, item);
  }

  lemma InsertSize(s: Pool, key: Key, item: Item)
    requires WellFormed(s)
    ensures s.cacheNum <= Insert(s, key, item).cacheNum <= s.cacheNum + 1
    ensures Insert(s, key, item).cacheSize == s.cacheSize
  {
    hide Accounted;
  }

  /** A leaf refused by the tree is released at once. */
  lemma RefusedSound(s: Pool, held: multiset<LeafId>, key: Key, item: Item)
    requires Sound(s, held)
    ensures var r := UpdateOne(s, key, item, Refused);
            Sound(r, held) && Contents(r) == Contents(s) && r.cacheNum == s.cacheNum && r.cacheSize == s.cacheSize
  {
    RefusedWellFormed(s);
    hide WellFormed;
    var r := UpdateOne(s, key, item, Refused);
    assert forall k :: k in s.tree ==> Listed(s, k) && (Listed(r, k) <==> Listed(s, k));
    assert Contents(r) == Contents(s);
  }

  lemma {:induction false} UpdateAllSound(s: Pool, held: multiset<LeafId>, start: Key, items: seq<Item>,
                                          fates: seq<Fate>)
    requires Sound(s, held) && |items| == |fates|
    ensures var r := UpdateAll(s, start, items, fates);
            && Sound(r, held)
            && Contents(r) == Store(Contents(s), start, items, fates)
            && s.cacheNum <= r.cacheNum <= s.cacheNum + |items|
            && r.cacheSize == s.cacheSize
    decreases |items|
  {
    if items != [] {
      UpdateOneSound(s, held, start, items[0], fates[0]);
      UpdateAllSound(UpdateOne(s, start, items[0], fates[0]), held, start + 1, items[1..], fates[1..]);
    }
  }

  /** Below 2^31 slots a pool within its size stays within it, and the update evicts exactly the least
      recently used leaves it has to, before inserting; larger pools never evict. */
  lemma UpdateBounded(s: Pool, held: multiset<LeafId>, start: Key, items: seq<Item>, fates: seq<Fate>)
    requires Sound(s, held) && |items| == |fates| && !TooBig(s, |items|)
    requires s.cacheNum <= s.cacheSize && s.cacheNum < TWO31
    ensures var n := s.cacheNum + |items| - s.cacheSize;
            s.cacheSize < TWO31 ==> Reclaim(s, |items|).lru == s.lru[..|s.lru| - (if n > 0 then n else 0)]
    ensures s.cacheSize < TWO31 ==> Update(s, start, items, fates).cacheNum <= s.cacheSize
    ensures s.cacheSize >= TWO31 ==> Reclaim(s, |items|) == s
  {
    hide WellFormed, RefsMatch, Indexed, Contents, Kick, UpdateAll, EvictionNeed;
    CachedKey(s, start);
    NeedIs(s.cacheNum, |items|, s.cacheSize);
    var n := EvictionNeed(s.cacheNum, |items|, s.cacheSize);
    if n > 0 {
      EvictsTail(s, n);
      KickSound(s, held, |s.lru|, Some(n), All);
    }
    UpdateAllSound(Reclaim(s, |items|), held, start, items, fates);
  }

  /** The plain map after a batch: the stored items under their keys, everything else as before. */
  lemma {:induction false} StoreAt(m: map<Key, Item>, start: Key, items: seq<Item>, fates: seq<Fate>, k: Key)
    requires |items| == |fates|
    ensures var i := k - start;
            if 0 <= i < |items| && fates[i].Stored?
            then k in Store(m, start, items, fates) && Store(m, start, items, fates)[k] == items[i]
            else && (k in Store(m, start, items, fates) <==> k in m)
                 && (k in m ==> Store(m, start, items, fates)[k] == m[k])
    decreases |items|
  {
    if items != [] {
      StoreAt(if fates[0].Stored? then m[start := items[0]] else m, start + 1, items[1..], fates[1..], k);
    }
  }

  /** An update of at most as many items as there are slots, full pool or not, ends with every item that
      the tree took served under its key, and any other key as before or evicted; one of more items,
      or on a pool without slots, changes nothing. */
  lemma UpdateServes(s: Pool, held: multiset<LeafId>, start: Key, items: seq<Item>, fates: seq<Fate>, k: Key)
    requires Sound(s, held) && |items| == |fates|
    ensures var r, i := Update(s, start, items, fates), k - start;
            if |items| > s.cacheSize || s.cacheSize == 0 then r == s
            else if 0 <= i < |items| && fates[i].Stored? then k in Contents(r) && Contents(r)[k] == items[i]
            else k in Contents(r) ==> k in Contents(s) && Contents(r)[k] == Contents(s)[k]
  {
    hide WellFormed, RefsMatch, Indexed, Contents, Kick, UpdateAll, EvictionNeed, Store;
    var t := Reclaim(s, |items|);
    var n := EvictionNeed(s.cacheNum, |items|, s.cacheSize);
    if n > 0 { KickSound(s, held, |s.lru|, Some(n), All); }
    UpdateAllSound(t, held, start, items, fates);
    StoreAt(Contents(t), start, items, fates, k);
  }

  /** The bound is met before the items go in exactly when the pool was not overfull by more
      than one whole size, the eviction being capped at `cacheSize`, and from 2^31 slots on only when
      nothing had to go. */
  lemma ReclaimExact(s: Pool, count: nat)
    requires WellFormed(s) && !TooBig(s, count) && s.cacheNum < TWO31
    ensures Reclaim(s, count).cacheNum + count <= s.cacheSize <==>
            s.cacheNum + count <= if s.cacheSize < TWO31 then 2 * s.cacheSize else s.cacheSize
  {
    hide EvictionNeed;
    NeedIs(s.cacheNum, count, s.cacheSize);
    var n := EvictionNeed(s.cacheNum, count, s.cacheSize);
    if n > 0 {
      EvictsTail(s, n);
    }
  }

  // ---------------------------------------------------------------- find

  /** A reference can still be taken on each cached leaf of the range: the 31-bit count has room. */
  ghost predicate Room(s: Pool, start: Key, n: nat) {
    forall k :: start <= k < start + n && k in s.tree ==>
      s.tree[k] in s.mem && RefCount(s.mem[s.tree[k]].word) < DELETE_BIT - 1
  }

  /** Take a reference on every cached key of `start .. start + n`, the highest key first. */
  function TouchRange(s: Pool, start: Key, n: nat): (r: Pool)
    requires Placed(s)
    ensures Placed(r) && r.tree == s.tree && r.released == s.released
    decreases n
  {
    if n == 0 then s
    else
      var k := start + n - 1;
      if k !in s.tree then TouchRange(s, start, n - 1)
      else
        TouchPlaced(s, s.tree[k]);
        TouchRange(Touch(s, s.tree[k]), start, n - 1)
  }

  lemma PlacedKey(s: Pool, k: Key)
    requires Placed(s)
    ensures k in s.tree ==> s.tree[k] in s.lru && s.tree[k] in s.mem && s.mem[s.tree[k]].blkid == k
  {
  }

  /** A lookup adds one to the word of every hit, and leaves the other words alone. */
  lemma {:induction false} TouchRangeWords(s: Pool, start: Key, n: nat, k: Key)
    requires Placed(s) && k in s.tree
    ensures var r := TouchRange(s, start, n); var l := s.tree[k];
            && l in s.mem && l in r.mem && l in r.lru
            && r.mem[l].word == if start <= k < start + n then Inc(s.mem[l].word) else s.mem[l].word
    decreases n
  {
    hide Placed, Inc;
    PlacedKey(s, k);
    if n != 0 {
      var j := start + n - 1;
      PlacedKey(s, j);
      if j in s.tree {
        TouchPlaced(s, s.tree[j]);
        TouchRangeWords(Touch(s, s.tree[j]), start, n - 1, k);
      } else {
        TouchRangeWords(s, start, n - 1, k);
      }
    }
  }

  lemma {:induction false} TouchRangeWellFormed(s: Pool, start: Key, n: nat)
    requires WellFormed(s) && Room(s, start, n)
    ensures Placed(s) && WellFormed(TouchRange(s, start, n))
    decreases n
  {
    hide WellFormed, Placed, Room, Touch;
    WellFormedPlaced(s);
    if n != 0 {
      var k := start + n - 1;
      PlacedKey(s, k);
      if k in s.tree {
        RoomFor(s, start, n, k);
        TouchWellFormed(s, s.tree[k]);
        TouchRoom(s, start, n);
        TouchRangeWellFormed(Touch(s, s.tree[k]), start, n - 1);
      } else {
        RoomShrinks(s, start, n);
        TouchRangeWellFormed(s, start, n - 1);
      }
    }
  }

  /** The 2^31st reference marks a cached leaf deleted: a lookup keeps the pool well formed exactly
      when every hit has room for one more reference. */
  lemma TouchRangeExactly(s: Pool, start: Key, n: nat)
    requires WellFormed(s)
    ensures Placed(s) && (WellFormed(TouchRange(s, start, n)) <==> Room(s, start, n))
  {
    hide WellFormed, Placed, TouchRange, IsDelete;
    WellFormedPlaced(s);
    if Room(s, start, n) {
      TouchRangeWellFormed(s, start, n);
    } else {
      CachedKey(s, start);
      var k :| start <= k < start + n && k in s.tree
          && !(s.tree[k] in s.mem && RefCount(s.mem[s.tree[k]].word) < DELETE_BIT - 1);
      CachedKey(s, k);
      Unmarked(s, s.tree[k]);
      TouchRangeWords(s, start, n, k);
      IncMarks(s.mem[s.tree[k]].word);
      if WellFormed(TouchRange(s, start, n)) { Unmarked(TouchRange(s, start, n), s.tree[k]); }
    }
  }

  lemma IncMarks(w: Word)
    requires !IsDelete(w) && RefCount(w) >= DELETE_BIT - 1
    ensures IsDelete(Inc(w))
  {
  }

  lemma Unmarked(s: Pool, l: LeafId)
    requires WellFormed(s) && l in s.lru
    ensures l in s.mem && !IsDelete(s.mem[l].word)
  {
  }

  lemma SoundIs(s: Pool, held: multiset<LeafId>)
    requires Sound(s, held)
    ensures WellFormed(s)
  {
  }

  lemma TouchRoom(s: Pool, start: Key, n: nat)
    requires WellFormed(s) && Room(s, start, n) && n > 0 && start + n - 1 in s.tree
    ensures Room(Touch(s, s.tree[start + n - 1]), start, n - 1)
  {
    hide Accounted, Counted;
  }

  /** The cached leaves of a range, by ascending key. */
  function Hits(tree: map<Key, LeafId>, start: Key, n: nat): (r: seq<LeafId>) {
    if n == 0 then []
    else Hits(tree, start, n - 1) + if start + n - 1 in tree then [tree[start + n - 1]] else []
  }

  lemma TouchRangeStep(s: Pool, start: Key, n: nat)
    requires Placed(s)
    ensures n == 0 ==> TouchRange(s, start, n) == s
    ensures n > 0 && start + n - 1 !in s.tree ==> TouchRange(s, start, n) == TouchRange(s, start, n - 1)
    ensures n > 0 && start + n - 1 in s.tree ==>
              && s.tree[start + n - 1] in s.mem && Placed(Touch(s, s.tree[start + n - 1]))
              && TouchRange(s, start, n) == TouchRange(Touch(s, s.tree[start + n - 1]), start, n - 1)
  {
    if n > 0 && start + n - 1 in s.tree { TouchPlaced(s, s.tree[start + n - 1]); }
    hide Touch;
  }

  lemma {:induction false} TouchRangeSound(s: Pool, held: multiset<LeafId>, start: Key, n: nat)
    requires Sound(s, held) && Room(s, start, n)
    ensures Placed(s)
    ensures var r := TouchRange(s, start, n);
            && Sound(r, held + multiset(Hits(s.tree, start, n)))
            && Contents(r) == Contents(s)
            && r.cacheNum == s.cacheNum && r.cacheSize == s.cacheSize
    decreases n
  {
    hide Sound, WellFormed, Placed, Contents, Room, Touch, TouchRange, Hits;
    SoundIs(s, held);
    WellFormedPlaced(s);
    HitsGrow(s.tree, start, n, held);
    TouchRangeStep(s, start, n);
    if n != 0 {
      var k := start + n - 1;
      CachedKey(s, k);
      if k in s.tree {
        var l := s.tree[k];
        RoomFor(s, start, n, k);
        TouchWellFormed(s, l);
        TouchRoom(s, start, n);
        TouchSound(s, held, l);
        TouchRangeSound(Touch(s, l), held + multiset{l}, start, n - 1);
      } else {
        RoomShrinks(s, start, n);
        TouchRangeSound(s, held, start, n - 1);
      }
    }
  }

  lemma HitsGrow(tree: map<Key, LeafId>, start: Key, n: nat, held: multiset<LeafId>)
    ensures n == 0 ==> held + multiset(Hits(tree, start, n)) == held
    ensures n > 0 && start + n - 1 in tree ==>
              held + multiset{tree[start + n - 1]} + multiset(Hits(tree, start, n - 1))
              == held + multiset(Hits(tree, start, n))
    ensures n > 0 && start + n - 1 !in tree ==> Hits(tree, start, n - 1) == Hits(tree, start, n)
  {
    if n > 0 && start + n - 1 in tree {
      assert Hits(tree, start, n) == Hits(tree, start, n - 1) + [tree[start + n - 1]];
    }
  }

  /** The list `s` without all entries of `xs`, the last of `xs` first. */
  ghost function WithoutAll(s: seq<LeafId>, xs: seq<LeafId>): seq<LeafId>
    decreases |xs|
  {
    if xs == [] then s else WithoutAll(Without(s, xs[|xs| - 1]), xs[..|xs| - 1])
  }

  lemma {:induction false} HitsMember(tree: map<Key, LeafId>, start: Key, n: nat)
    ensures forall l :: l in Hits(tree, start, n) <==> exists k :: start <= k < start + n && k in tree && tree[k] == l
    ensures |Hits(tree, start, n)| <= n
  {
    if n != 0 {
      HitsMember(tree, start, n - 1);
      var k := start + n - 1;
      assert Hits(tree, start, n) == Hits(tree, start, n - 1) + if k in tree then [tree[k]] else [];
      if k in tree {
        assert forall l :: l in Hits(tree, start, n) <==> l in Hits(tree, start, n - 1) || l == tree[k];
      }
    }
  }

  /** The hits end up at the front of the LRU list in ascending key order; the others follow in
      their old order. */
  lemma {:induction false} TouchRangeOrder(s: Pool, start: Key, n: nat)
    requires Placed(s)
    ensures TouchRange(s, start, n).lru == Hits(s.tree, start, n) + WithoutAll(s.lru, Hits(s.tree, start, n))
    decreases n
  {
    hide Placed, Inc, Without, WithoutAll, Hits;
    if n == 0 {
      NoHits(s.tree, start, s.lru);
    } else {
      var k := start + n - 1;
      PlacedKey(s, k);
      HitsNext(s.tree, start, n);
      if k in s.tree {
        var l := s.tree[k];
        TouchPlaced(s, l);
        TouchRangeOrder(Touch(s, l), start, n - 1);
        HitsBelow(s, start, n - 1, k);
        HitsOrder(s.lru, l, Hits(s.tree, start, n - 1));
      } else {
        TouchRangeOrder(s, start, n - 1);
      }
    }
  }

  lemma NoHits(tree: map<Key, LeafId>, start: Key, lru: seq<LeafId>)
    ensures Hits(tree, start, 0) + WithoutAll(lru, Hits(tree, start, 0)) == lru
  {
  }

  lemma HitsNext(tree: map<Key, LeafId>, start: Key, n: nat)
    requires n > 0
    ensures Hits(tree, start, n) ==
            if start + n - 1 in tree then Hits(tree, start, n - 1) + [tree[start + n - 1]] else Hits(tree, start, n - 1)
  {
  }

  lemma HitsOrder(lru: seq<LeafId>, l: LeafId, rest: seq<LeafId>)
    requires l !in rest
    ensures rest + WithoutAll([l] + Without(lru, l), rest) == rest + [l] + WithoutAll(lru, rest + [l])
  {
    var h := rest + [l];
    WithoutAllCons(l, Without(lru, l), rest);
    assert h[..|h| - 1] == rest;
    assert rest + ([l] + WithoutAll(Without(lru, l), rest)) == h + WithoutAll(lru, h);
  }

  lemma RoomFor(s: Pool, start: Key, n: nat, k: Key)
    requires Room(s, start, n) && start <= k < start + n && k in s.tree
    ensures s.tree[k] in s.mem && RefCount(s.mem[s.tree[k]].word) < DELETE_BIT - 1
  {
  }

  lemma RoomShrinks(s: Pool, start: Key, n: nat)
    requires Room(s, start, n) && n > 0
    ensures Room(s, start, n - 1)
  {
  }

  /** A leaf is cached under one key only, so it is not among the hits below its key. */
  lemma HitsBelow(s: Pool, start: Key, n: nat, k: Key)
    requires Placed(s) && k in s.tree && start + n <= k
    ensures s.tree[k] !in Hits(s.tree, start, n)
  {
    hide Placed;
    HitsMember(s.tree, start, n);
    forall j | j in s.tree ensures s.tree[j] == s.tree[k] ==> j == k {
      PlacedKey(s, j);
      PlacedKey(s, k);
    }
  }

  lemma {:induction false} WithoutAllCons(l: LeafId, s: seq<LeafId>, xs: seq<LeafId>)
    requires l !in xs
    ensures WithoutAll([l] + s, xs) == [l] + WithoutAll(s, xs)
    decreases |xs|
  {
    if xs != [] {
      var x := xs[|xs| - 1];
      assert ([l] + s)[1..] == s;
      assert Without([l] + s, x) == [l] + Without(s, x);
      WithoutAllCons(l, Without(s, x), xs[..|xs| - 1]);
    }
  }

  // ---------------------------------------------------------------- put

  /** The leaves of a basket. */
  function Leaves(basket: seq<Option<LeafId>>): (r: seq<LeafId>) {
    if basket == [] then []
    else (if basket[0].Some? then [basket[0].value] else []) + Leaves(basket[1..])
  }

  /** Every leaf of the basket is held when its turn comes. */
  ghost predicate Puttable(s: Pool, basket: seq<Option<LeafId>>)
    decreases |basket|
  {
    basket == [] ||
    match basket[0]
    case None => Puttable(s, basket[1..])
    case Some(l) => l in s.mem && RefCount(s.mem[l].word) > 0 && Puttable(Unref(s, l), basket[1..])
  }

  function Put(s: Pool, basket: seq<Option<LeafId>>): (r: Pool)
    requires Puttable(s, basket)
    ensures s.released <= r.released
    decreases |basket|
  {
    if basket == [] then s
    else match basket[0]
      case None => Put(s, basket[1..])
      case Some(l) => Put(Unref(s, l), basket[1..])
  }

  /** A caller may put back what it found: each held leaf loses exactly one reference. */
  lemma {:induction false} PutSound(s: Pool, held: multiset<LeafId>, basket: seq<Option<LeafId>>)
    requires Sound(s, held) && multiset(Leaves(basket)) <= held
    ensures Puttable(s, basket)
    ensures var r := Put(s, basket);
            && Sound(r, held - multiset(Leaves(basket)))
            && Contents(r) == Contents(s)
            && r.cacheNum == s.cacheNum && r.cacheSize == s.cacheSize
    decreases |basket|
  {
    hide Sound, Contents, Unref;
    if basket != [] {
      var rest := Leaves(basket[1..]);
      match basket[0]
      case None =>
        assert Leaves(basket) == rest;
        PutSound(s, held, basket[1..]);
      case Some(l) =>
        assert multiset(Leaves(basket)) == multiset{l} + multiset(rest);
        UnrefSound(s, held, l);
        PutSound(Unref(s, l), held - multiset{l}, basket[1..]);
        assert held - multiset{l} - multiset(rest) == held - multiset(Leaves(basket));
    } else {
      assert held - multiset(Leaves(basket)) == held;
    }
  }

  // ---------------------------------------------------------------- invalidation

  /** Delete the keys `start .. start + n`, in ascending order. */
  function Invalidate(s: Pool, start: Key, n: nat): (r: Pool)
    requires WellFormed(s)
    ensures WellFormed(r) && s.released <= r.released
    decreases n
  {
    if n == 0 then s
    else if start !in s.tree then Invalidate(s, start + 1, n - 1)
    else
      DetachWellFormed(s, s.tree[start], true);
      Invalidate(Detach(s, s.tree[start], true), start + 1, n - 1)
  }

  ghost function DropRange(m: map<Key, Item>, start: Key, n: nat): map<Key, Item> {
    map k | k in m && !(start <= k < start + n) :: m[k]
  }

  lemma {:induction false} InvalidateSound(s: Pool, held: multiset<LeafId>, start: Key, n: nat)
    requires Sound(s, held)
    ensures var r := Invalidate(s, start, n);
            && Sound(r, held)
            && Contents(r) == DropRange(Contents(s), start, n)
            && r.cacheNum <= s.cacheNum && r.cacheSize == s.cacheSize
    decreases n
  {
    hide WellFormed, RefsMatch, Indexed, Contents, Detach;
    if n != 0 {
      CachedKey(s, start);
      if start !in s.tree {
        InvalidateSound(s, held, start + 1, n - 1);
      } else {
        var l := s.tree[start];
        DetachSound(s, held, l, true);
        InvalidateSound(Detach(s, l, true), held, start + 1, n - 1);
      }
      assert DropRange(Contents(s), start, n) == DropRange(Contents(s) - {start}, start + 1, n - 1);
      assert start !in s.tree ==> Contents(s) - {start} == Contents(s);
    } else {
      assert DropRange(Contents(s), start, n) == Contents(s);
    }
  }

  /** Delete the listed keys; their index list is already gone. */
  function DropKeys(s: Pool, keys: seq<Key>): (r: Pool)
    requires WellFormed(s)
    ensures WellFormed(r) && s.released <= r.released
    decreases |keys|
  {
    if keys == [] then s
    else if keys[0] !in s.tree then DropKeys(s, keys[1..])
    else
      DetachWellFormed(s, s.tree[keys[0]], false);
      DropKeys(Detach(s, s.tree[keys[0]], false), keys[1..])
  }

  function InvalidateHbid(s: Pool, h: Hbid): (r: Pool)
    requires WellFormed(s)
    ensures WellFormed(r) && s.released <= r.released
  {
    if h !in s.index then s else DropKeys(s.(index := s.index - {h}), s.index[h])
  }

  lemma {:induction false} DropKeysEffect(s: Pool, held: multiset<LeafId>, keys: seq<Key>)
    requires WellFormed(s) && RefsMatch(s, held)
    ensures var r := DropKeys(s, keys);
            && RefsMatch(r, held)
            && Contents(r) == (map k | k in Contents(s) && k !in keys :: Contents(s)[k])
            && r.index == s.index
            && r.cacheNum <= s.cacheNum && r.cacheSize == s.cacheSize
    decreases |keys|
  {
    hide WellFormed, RefsMatch, Contents, Detach;
    if keys != [] {
      var k := keys[0];
      assert keys == [k] + keys[1..];
      assert forall x :: x in keys <==> x == k || x in keys[1..];
      CachedKey(s, k);
      if k !in s.tree {
        DropKeysEffect(s, held, keys[1..]);
      } else {
        var l := s.tree[k];
        DetachSound(s, held, l, false);
        DropKeysEffect(Detach(s, l, false), held, keys[1..]);
      }
    }
  }

  /** The index plays no part in the other invariants. */
  lemma IndexAside(s: Pool, held: multiset<LeafId>, index: map<Hbid, seq<Key>>)
    requires WellFormed(s) && RefsMatch(s, held)
    ensures var t := s.(index := index); WellFormed(t) && RefsMatch(t, held) && Contents(t) == Contents(s)
  {
    var t := s.(index := index);
    assert Contents(t).Keys == Contents(s).Keys;
  }

  /** Invalidation by HBID removes exactly the keys listed under it. Because the listing is
      complete, no item with that HBID survives; a key listed for an older item goes too. */
  lemma InvalidateHbidSound(s: Pool, held: multiset<LeafId>, h: Hbid)
    requires Sound(s, held)
    ensures var r := InvalidateHbid(s, h);
            && Sound(r, held)
            && (forall k :: k in Contents(r) <==> k in Contents(s) && !(h in s.index && k in s.index[h]))
            && (forall k :: k in Contents(r) ==> Contents(r)[k] == Contents(s)[k] && Contents(r)[k].hbid != h)
            && r.cacheNum <= s.cacheNum && r.cacheSize == s.cacheSize
  {
    hide WellFormed, RefsMatch, Contents, DropKeys;
    forall k ensures k in s.tree <==> k in Contents(s) {
      CachedKey(s, k);
    }
    forall k | k in s.tree ensures Contents(s)[k].hbid in s.index && k in s.index[Contents(s)[k].hbid] {
      CachedKey(s, k);
      assert Listed(s, k);
    }
    if h in s.index {
      var t := s.(index := s.index - {h});
      var r := InvalidateHbid(s, h);
      IndexAside(s, held, t.index);
      DropKeysEffect(t, held, s.index[h]);
      forall k | k in r.tree ensures r.tree[k] in r.mem && Listed(r, k) {
        CachedKey(r, k);
      }
    }
  }
}
