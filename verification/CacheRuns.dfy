/** Every sequence of cache operations on a live pool, beside the plain map it caches and the
    references its callers hold. Each step is one section under the pool's tree lock, or one of
    the accesses of a resize outside it. */
module CacheRuns {
  import opened Wrappers
  import opened Seqs
  import opened MachineInts
  import opened LeafWord
  import opened CacheState
  import opened CacheOps

  datatype Op =
    | UpdateOp(start: Key, items: seq<Item>, fates: seq<Fate>)
    | FindOp(start: Key, count: nat)
    | PutOp(basket: seq<Option<LeafId>>)
    | InvalidateOp(start: Key, count: nat)
    | SweepOp(cmp: Item -> bool)
    | InvalidateHbidOp(hbid: Hbid)
    | SizeOp(size: Word, large: bool) | TestOp | CountOp | KickOp

  /** Where a resize stands: the new size is written; `cache_num` was read and found too large; it was
      read again for the number of leaves to evict. */
  datatype Resizing = NoResize | Written(large: bool) | Passed | Evicting(excess: int)

  /** `last` is the reference: the item last stored for each key and not invalidated since.
      `held` counts finds minus puts for each leaf. */
  datatype World = World(pool: Pool, last: map<Key, Item>, held: multiset<LeafId>, resize: Resizing)

  function Start(size: Word): World { World(EmptyPool(size), map[], multiset{}, NoResize) }

  ghost predicate Within(a: map<Key, Item>, b: map<Key, Item>) {
    forall k :: k in a ==> k in b && b[k] == a[k]
  }

  ghost predicate Serves(s: Pool, last: map<Key, Item>)
    requires WellFormed(s)
  {
    Within(Contents(s), last)
  }

  ghost predicate Good(w: World) {
    && Sound(w.pool, w.held)
    && Serves(w.pool, w.last)
    && Bounded(w.pool, w.resize)
    && w.pool.cacheNum < TWO31
  }

  /** Below 2^31 slots: within its size, but for the excess that a resize under way is still to
      evict. */
  ghost predicate Bounded(s: Pool, resize: Resizing) {
    s.cacheSize < TWO31 ==>
      match resize
      case NoResize => s.cacheNum <= s.cacheSize
      case Written(_) => true
      case Passed => true
      case Evicting(n) => s.cacheNum <= s.cacheSize + if n > 0 then n else 0
  }

  /** Callers put back only what they hold, and never hold 2^31 - 1 references on one leaf; a pool
      never has 2^31 leaves; the table lock keeps resizes apart. */
  ghost predicate Allowed(w: World, op: Op)
    requires Good(w)
  {
    match op
    case UpdateOp(start, items, fates) => |items| == |fates| && Update(w.pool, start, items, fates).cacheNum < TWO31
    case FindOp(_, _) => forall l :: l in w.held ==> w.held[l] < DELETE_BIT - 1
    case PutOp(basket) => multiset(Leaves(basket)) <= w.held
    case SizeOp(_, _) => w.resize.NoResize?
    case TestOp => w.resize.Written?
    case CountOp => w.resize.Passed?
    case KickOp => w.resize.Evicting?
    case _ => true
  }

  lemma SizeAside(s: Pool, size: Word)
    requires WellFormed(s)
    ensures WellFormed(s.(cacheSize := size))
  {
    var t := s.(cacheSize := size);
    assert Linked(t);
  }

  ghost function Step(w: World, op: Op): World
    requires Good(w) && Allowed(w, op)
  {
    match op
    case UpdateOp(start, items, fates) =>
      w.(pool := Update(w.pool, start, items, fates),
         last := if TooBig(w.pool, |items|) then w.last else Store(w.last, start, items, fates))
    case FindOp(start, count) =>
      WellFormedPlaced(w.pool);
      w.(pool := TouchRange(w.pool, start, count), held := w.held + multiset(Hits(w.pool.tree, start, count)))
    case PutOp(basket) =>
      PutSound(w.pool, w.held, basket);
      w.(pool := Put(w.pool, basket), held := w.held - multiset(Leaves(basket)))
    case InvalidateOp(start, count) =>
      w.(pool := Invalidate(w.pool, start, count), last := DropRange(w.last, start, count))
    case SweepOp(cmp) =>
      w.(pool := Kick(w.pool, |w.pool.lru|, None, cmp), last := map k | k in w.last && !cmp(w.last[k]) :: w.last[k])
    case InvalidateHbidOp(h) =>
      w.(pool := InvalidateHbid(w.pool, h), last := map k | k in w.last && w.last[k].hbid != h :: w.last[k])
    case SizeOp(size, large) =>
      w.(pool := w.pool.(cacheSize := size), resize := Written(large))
    case TestOp => // the size of a large volume is compared signed
      var size := if w.resize.large then ToInt32(w.pool.cacheSize) else w.pool.cacheSize;
      w.(resize := if w.pool.cacheNum > size then Passed else NoResize)
    case CountOp =>
      w.(resize := Evicting(ToInt32(w.pool.cacheNum - w.pool.cacheSize)))
    case KickOp =>
      w.(pool := KickCount(w.pool, w.resize.excess), resize := NoResize)
  }

  lemma HeldRoom(s: Pool, held: multiset<LeafId>, start: Key, n: nat)
    requires Sound(s, held) && forall l :: l in held ==> held[l] < DELETE_BIT - 1
    ensures Room(s, start, n)
  {
    hide Accounted, Counted, Indexed;
  }

  // ---------------------------------------------------------------- one step

  lemma {:induction false} StoreKeeps(a: map<Key, Item>, b: map<Key, Item>, start: Key, items: seq<Item>,
                                      fates: seq<Fate>)
    requires |items| == |fates| && Within(a, b)
    ensures Within(Store(a, start, items, fates), Store(b, start, items, fates))
    decreases |items|
  {
    if items != [] {
      var a' := if fates[0].Stored? then a[start := items[0]] else a;
      var b' := if fates[0].Stored? then b[start := items[0]] else b;
      StoreKeeps(a', b', start + 1, items[1..], fates[1..]);
    }
  }

  lemma UpdateGood(w: World, start: Key, items: seq<Item>, fates: seq<Fate>)
    requires Good(w) && Allowed(w, UpdateOp(start, items, fates))
    ensures Good(Step(w, UpdateOp(start, items, fates)))
  {
    hide WellFormed, RefsMatch, Indexed, Contents, Kick, UpdateAll, EvictionNeed;
    var s := w.pool;
    if !TooBig(s, |items|) {
      var t := Reclaim(s, |items|);
      var n := EvictionNeed(s.cacheNum, |items|, s.cacheSize);
      if n > 0 {
        KickSound(s, w.held, |s.lru|, Some(n), All);
      }
      UpdateGrowth(s, w.held, start, items, fates);
      UpdateAllSound(t, w.held, start, items, fates);
      StoreKeeps(Contents(t), w.last, start, items, fates);
    }
  }

  /** An update never takes an overfull pool of less than 2^31 slots further from its size. */
  lemma UpdateGrowth(s: Pool, held: multiset<LeafId>, start: Key, items: seq<Item>, fates: seq<Fate>)
    requires Sound(s, held) && |items| == |fates| && !TooBig(s, |items|) && s.cacheNum < TWO31
    ensures Update(s, start, items, fates).cacheSize == s.cacheSize
    ensures var r := Update(s, start, items, fates);
            s.cacheSize < TWO31 ==> r.cacheNum <= if s.cacheNum > s.cacheSize then s.cacheNum else s.cacheSize
  {
    hide WellFormed, RefsMatch, Indexed, Contents, Kick, UpdateAll, EvictionNeed;
    CachedKey(s, start);
    NeedIs(s.cacheNum, |items|, s.cacheSize);
    var n := EvictionNeed(s.cacheNum, |items|, s.cacheSize);
    if n > 0 {
      EvictsTail(s, n);
      KickSound(s, held, |s.lru|, Some(n), All);
    }
    UpdateAllSound(Reclaim(s, |items|), held, start, items, fates);
  }

  lemma SweepGood(w: World, cmp: Item -> bool)
    requires Good(w)
    ensures Good(Step(w, SweepOp(cmp)))
    ensures var s, r := w.pool, Step(w, SweepOp(cmp)).pool;
            Contents(r) == map k | k in Contents(s) && !cmp(Contents(s)[k]) :: Contents(s)[k]
  {
    hide WellFormed, RefsMatch, Indexed, Contents, Kick;
    var s := w.pool;
    KickSound(s, w.held, |s.lru|, None, cmp);
    var r := Kick(s, |s.lru|, None, cmp);
    assert s.lru[..|s.lru|] == s.lru;
    forall k | k in Contents(r) ensures k in s.tree && s.tree[k] in s.lru {
      CachedKey(s, k);
    }
    KickShrinks(s, |s.lru|, None, cmp);
  }

  lemma {:induction false} KickShrinks(s: Pool, i: nat, quota: Option<nat>, cmp: Item -> bool)
    requires WellFormed(s) && i <= |s.lru|
    ensures Kick(s, i, quota, cmp).cacheNum <= s.cacheNum
    decreases i
  {
    hide WellFormed, Detach;
    if i != 0 && quota != Some(0) {
      var l := s.lru[i - 1];
      CachedLeaf(s, l);
      if !cmp(s.mem[l].data) {
        KickShrinks(s, i - 1, quota, cmp);
      } else {
        DetachEffect(s, l, true);
        DetachWellFormed(s, l, true);
        KickSplit(s, i);
        KickShrinks(Detach(s, l, true), i - 1, Less(quota), cmp);
      }
    }
  }

  /** Evicting by the count that was read restores the bound, whatever was stored, found, put back or
      invalidated since. */
  lemma KickGood(w: World)
    requires Good(w) && w.resize.Evicting?
    ensures Good(Step(w, KickOp)) && Step(w, KickOp).pool.lru == Left(w.pool.lru, w.resize.excess)
    ensures w.pool.cacheSize < TWO31 ==> Step(w, KickOp).pool.cacheNum <= w.pool.cacheSize
  {
    hide WellFormed, RefsMatch, Indexed, Contents, KickCount;
    CachedKey(w.pool, 0);
    KickCountSound(w.pool, w.held, w.resize.excess);
  }

  /** Nothing stays cached exactly when nothing was, the count is -1, or it covers every leaf. */
  lemma KickEmpties(w: World)
    requires Good(w) && w.resize.Evicting?
    ensures Step(w, KickOp).pool.lru == [] <==>
            w.pool.lru == [] || w.resize.excess == -1 || w.resize.excess >= |w.pool.lru|
  {
    hide WellFormed, RefsMatch, Indexed, Contents, KickCount;
    KickGood(w);
  }

  lemma SizeGood(w: World, size: Word, large: bool)
    requires Good(w) && w.resize.NoResize?
    ensures Good(Step(w, SizeOp(size, large)))
  {
    hide WellFormed, RefsMatch, Indexed, Contents, Kick;
    ResizeAside(w.pool, w.held, size);
  }

  /** Both reads of `cache_num` leave the pool alone. */
  lemma ReadsGood(w: World, op: Op)
    requires Good(w) && Allowed(w, op) && (op.TestOp? || op.CountOp?)
    ensures Good(Step(w, op)) && Step(w, op).pool == w.pool
  {
    hide WellFormed, RefsMatch, Indexed, Contents;
    CachedKey(w.pool, 0);
  }

  /** One step, as a relation. */
  ghost predicate Does(w: World, op: Op, w': World) { Good(w) && Allowed(w, op) && w' == Step(w, op) }

  lemma DoesFrom(w: World, op: Op, w': World)
    requires Does(w, op, w')
    ensures Good(w)
  {
    hide Good, Step;
  }

  /** Size write and first read, with nothing in between. */
  lemma SizeTest(w: World, size: Word, large: bool, w1: World, w2: World)
    requires Does(w, SizeOp(size, large), w1) && Does(w1, TestOp, w2)
    ensures Good(w) && Good(w2) && w2.pool == w.pool.(cacheSize := size) && (w2.resize.Passed? || w2.resize.NoResize?)
    ensures w2.resize.Passed? <==> w.pool.cacheNum > if large then ToInt32(size) else size
  {
    hide Good, ToInt32;
    ReadsGood(w1, TestOp);
  }

  /** The second read and the eviction, with nothing in between. */
  lemma CountKick(w: World, w1: World, w2: World)
    requires Does(w, CountOp, w1) && Does(w1, KickOp, w2)
    ensures Good(w2) && w2.pool.lru == Left(w.pool.lru, ToInt32(w.pool.cacheNum - w.pool.cacheSize))
  {
    hide Good, KickCount, ToInt32, Left;
    ReadsGood(w, CountOp);
    KickGood(w1);
  }

  lemma NumIs(w: World)
    requires Good(w)
    ensures 0 <= w.pool.cacheNum == |w.pool.lru| < TWO31
  {
    hide RefsMatch, Indexed, Contents, Linked, Accounted;
  }

  /** The two signed readings of a size. */
  lemma SignedSize(num: int, size: Word)
    requires 0 <= num < TWO31
    ensures ToInt32(num - size) == if size - num > TWO31 then num - size + TWO32 else num - size
    ensures ToInt32(size) == if size < TWO31 then size else size - TWO32
  {
  }

  /** An undisturbed resize to less than 2^31 slots keeps exactly the most recently used leaves that
      fit. */
  lemma ResizeGood(w: World, size: Word, large: bool, w1: World, w2: World, w3: World, w4: World)
    requires size < TWO31 && Does(w, SizeOp(size, large), w1) && Does(w1, TestOp, w2)
    ensures Good(w2)
    ensures w.pool.cacheNum <= size ==> w2.resize.NoResize? && w2.pool.lru == w.pool.lru
    ensures w.pool.cacheNum > size ==>
              w2.resize.Passed? &&
              (Does(w2, CountOp, w3) && Does(w3, KickOp, w4) ==>
                 Good(w4) && w4.pool.lru == w.pool.lru[..Min(|w.pool.lru|, size)])
  {
    hide Good, Does, ToInt32;
    SizeTest(w, size, large, w1, w2);
    NumIs(w);
    SignedSize(w.pool.cacheNum, size);
    if Does(w2, CountOp, w3) && Does(w3, KickOp, w4) { CountKick(w2, w3, w4); }
  }

  /** The count is read twice: if the pool came to fit after the first read, the eviction empties it
      exactly when it is one short of full, and otherwise leaves it alone. */
  lemma FittingPoolEmptied(w: World, w1: World, w2: World)
    requires Does(w, CountOp, w1) && Does(w1, KickOp, w2) && w.pool.cacheNum <= w.pool.cacheSize < TWO31
    ensures w2.pool.lru == if w.pool.cacheNum == w.pool.cacheSize - 1 then [] else w.pool.lru
  {
    hide Good, Does, ToInt32;
    DoesFrom(w, CountOp, w1);
    NumIs(w);
    SignedSize(w.pool.cacheNum, w.pool.cacheSize);
    CountKick(w, w1, w2);
  }

  /** From 2^31 slots on the size of a large volume is negative as a 32-bit integer: an undisturbed
      resize evicts everything when the size is more than 2^31 above the count or one above it, and
      otherwise nothing. */
  lemma WideResize(w: World, size: Word, w1: World, w2: World, w3: World, w4: World)
    requires size >= TWO31 && Does(w, SizeOp(size, true), w1) && Does(w1, TestOp, w2)
    ensures w2.resize.Passed?
    ensures Does(w2, CountOp, w3) && Does(w3, KickOp, w4) ==>
              w4.pool.lru == if size - w.pool.cacheNum > TWO31 || size - w.pool.cacheNum == 1 then [] else w.pool.lru
  {
    hide Good, Does, ToInt32;
    SizeTest(w, size, true, w1, w2);
    NumIs(w);
    SignedSize(w.pool.cacheNum, size);
    if Does(w2, CountOp, w3) && Does(w3, KickOp, w4) { CountKick(w2, w3, w4); }
  }

  lemma ResizeAside(s: Pool, held: multiset<LeafId>, size: Word)
    requires Sound(s, held)
    ensures Sound(s.(cacheSize := size), held) && Contents(s.(cacheSize := size)) == Contents(s)
  {
    hide WellFormed;
    SizeAside(s, size);
    var t := s.(cacheSize := size);
    assert Indexed(t) by {
      assert forall k :: k in s.tree ==> Listed(s, k) && Listed(t, k);
    }
    hide Indexed;
    forall k
      ensures (k in Contents(t) <==> k in Contents(s)) && (k in Contents(s) ==> Contents(t)[k] == Contents(s)[k])
    {
      CachedKey(s, k);
      CachedKey(t, k);
    }
  }

  /** Every operation keeps the pool sound, within its size, and never serving a stale item;
      nothing already released becomes live again. */
  lemma StepGood(w: World, op: Op)
    requires Good(w) && Allowed(w, op)
    ensures Good(Step(w, op))
    ensures w.pool.released <= Step(w, op).pool.released
  {
    hide WellFormed, RefsMatch, Indexed, Contents, Update, TouchRange, Hits, Put, Invalidate, InvalidateHbid, Kick,
        Store;
    match op
    case UpdateOp(start, items, fates) => UpdateGood(w, start, items, fates);
    case FindOp(start, count) =>
      HeldRoom(w.pool, w.held, start, count);
      TouchRangeSound(w.pool, w.held, start, count);
    case PutOp(basket) => PutSound(w.pool, w.held, basket);
    case InvalidateOp(start, count) => InvalidateSound(w.pool, w.held, start, count);
    case SweepOp(cmp) => SweepGood(w, cmp);
    case InvalidateHbidOp(h) => InvalidateHbidSound(w.pool, w.held, h);
    case SizeOp(size, large) => SizeGood(w, size, large);
    case TestOp => ReadsGood(w, op);
    case CountOp => ReadsGood(w, op);
    case KickOp => KickGood(w);
  }

  // ---------------------------------------------------------------- whole runs

  ghost predicate AllowedRun(w: World, ops: seq<Op>)
    requires Good(w)
    decreases |ops|
  {
    ops == [] ||
    (&& Allowed(w, ops[0])
     && (StepGood(w, ops[0]); AllowedRun(Step(w, ops[0]), ops[1..])))
  }

  /** The world after a run of any length. */
  ghost function Final(w: World, ops: seq<Op>): (r: World)
    requires Good(w) && AllowedRun(w, ops)
    ensures Good(r) && w.pool.released <= r.pool.released
    decreases |ops|
  {
    if ops == [] then w
    else StepGood(w, ops[0]); Final(Step(w, ops[0]), ops[1..])
  }

  /** Cache refinement: after any run from an empty pool, tree and LRU list are the same
      `cacheNum` leaves, and whatever the cache serves for a key is the item last stored for
      it and not invalidated since. Outside a resize they fit a pool of less than 2^31 slots. */
  lemma NeverStale(size: Word, ops: seq<Op>, k: Key)
    requires AllowedRun(Start(size), ops)
    ensures var w := Final(Start(size), ops);
            && |w.pool.tree| == |w.pool.lru| == w.pool.cacheNum
            && (w.resize.NoResize? && w.pool.cacheSize < TWO31 ==> w.pool.cacheNum <= w.pool.cacheSize)
            && (k in w.pool.tree ==> k in w.last && w.pool.mem[w.pool.tree[k]].data == w.last[k])
  {
    var w := Final(Start(size), ops);
    TreeSize(w.pool);
    CachedKey(w.pool, k);
  }

  /** The run above can start. */
  lemma EmptyGood(size: Word)
    ensures Good(Start(size))
  {
    var s := EmptyPool(size);
    assert WellFormed(s) by {
      assert Linked(s);
    }
    assert Contents(s) == map[];
  }

  /** A run as a relation, step by step. */
  ghost predicate Reaches(w: World, ops: seq<Op>, w': World) { Good(w) && AllowedRun(w, ops) && Final(w, ops) == w' }

  lemma ReachesCons(w: World, op: Op, v: World, ops: seq<Op>, w': World)
    requires Does(w, op, v) && Reaches(v, ops, w')
    ensures Reaches(w, [op] + ops, w')
  {
    hide Good, Allowed, Step;
    StepGood(w, op);
    assert ([op] + ops)[1..] == ops;
  }

  lemma ReachesNow(w: World)
    requires Good(w)
    ensures Reaches(w, [], w)
  {
  }

  /** The size of a pool is that of its contents. */
  lemma NumOfContents(s: Pool)
    requires WellFormed(s)
    ensures s.cacheNum == |Contents(s)|
  {
    TreeSize(s);
    hide WellFormed;
    assert Contents(s).Keys == s.tree.Keys;
  }

  /** Three items fill a pool of three. */
  lemma FillStep(a: Item)
    ensures Good(Start(3))
    ensures var op := UpdateOp(0, [a, a, a], [Stored, Stored, Stored]);
            && Allowed(Start(3), op) && Step(Start(3), op).pool.cacheNum == 3 && Step(Start(3), op).pool.cacheSize == 3
            && Contents(Step(Start(3), op).pool) == map[0 := a, 1 := a, 2 := a]
  {
    var s := EmptyPool(3);
    EmptyGood(3);
    EmptyContents(3);
    hide WellFormed, RefsMatch, Indexed, Contents, UpdateAll, Bounded;
    NeedIs(0, 3, 3);
    assert Reclaim(s, 3) == s;
    UpdateAllSound(s, multiset{}, 0, [a, a, a], [Stored, Stored, Stored]);
    StoreThree(a);
    NumOfContents(Update(s, 0, [a, a, a], [Stored, Stored, Stored]));
  }

  lemma StoreThree(a: Item)
    ensures Store(map[], 0, [a, a, a], [Stored, Stored, Stored]) == map[0 := a, 1 := a, 2 := a]
    ensures |map[0 := a, 1 := a, 2 := a]| == 3 && |map[0 := a]| == 1
    ensures DropRange(map[0 := a, 1 := a, 2 := a], 1, 2) == map[0 := a]
  {
    assert [a, a, a][1..] == [a, a] && [a, a][1..] == [a] && [a][1..] == [];
    var f := [Stored, Stored, Stored];
    assert f[1..] == [Stored, Stored] && [Stored, Stored][1..] == [Stored] && [Stored][1..] == [];
    var m: map<Key, Item> := map[];
    assert Store(m[0 := a][1 := a], 2, [a], [Stored]) == m[0 := a][1 := a][2 := a];
    assert Store(m[0 := a], 1, [a, a], [Stored, Stored]) == m[0 := a][1 := a][2 := a];
    assert m[0 := a][1 := a][2 := a] == map[0 := a, 1 := a, 2 := a];
    assert (map[0 := a, 1 := a, 2 := a]).Keys == {0, 1, 2};
  }

  /** A run from an empty pool of three: filled, resized to two, and, between the two reads of the
      count, two keys are invalidated. The one leaf that is left fits, and is evicted. */
  lemma EmptiedReached(a: Item)
    ensures exists ops, w, w' :: && Reaches(Start(3), ops, w) && w.pool.cacheNum == 1 && w.pool.cacheSize == 2
                                 && Reaches(w, [CountOp] + ([KickOp] + []), w') && w'.pool.lru == []
  {
    hide *;
    var fill := UpdateOp(0, [a, a, a], [Stored, Stored, Stored]);
    var w0 := Start(3);
    var w1 := Filled(a);
    var w2, w3 := Shrunk(w1);
    var w4 := Invalidated(w3);
    DoesFrom(w1, SizeOp(2, false), w2);
    InvalidatedRest(w1, w3, w4, a);
    ReachesNow(w4);
    ReachesCons(w3, InvalidateOp(1, 2), w4, [], w4);
    ReachesCons(w2, TestOp, w3, [InvalidateOp(1, 2)] + [], w4);
    ReachesCons(w1, SizeOp(2, false), w2, [TestOp] + ([InvalidateOp(1, 2)] + []), w4);
    ReachesCons(w0, fill, w1, [SizeOp(2, false)] + ([TestOp] + ([InvalidateOp(1, 2)] + [])), w4);
    var w' := Evicted(w4);
    assert Reaches(w0, [fill] + ([SizeOp(2, false)] + ([TestOp] + ([InvalidateOp(1, 2)] + []))), w4);
  }

  lemma Evicted(w: World) returns (w': World)
    requires Good(w) && w.resize.Passed? && w.pool.cacheNum == 1 && w.pool.cacheSize == 2
    ensures Reaches(w, [CountOp] + ([KickOp] + []), w') && w'.pool.lru == []
  {
    hide Good, KickCount, Reaches, ToInt32;
    var v := Step(w, CountOp);
    ReadsGood(w, CountOp);
    w' := Step(v, KickOp);
    KickGood(v);
    FittingPoolEmptied(w, v, w');
    ReachesNow(w');
    ReachesCons(v, KickOp, w', [], w');
    ReachesCons(w, CountOp, v, [KickOp] + [], w');
  }

  lemma Filled(a: Item) returns (w: World)
    ensures Does(Start(3), UpdateOp(0, [a, a, a], [Stored, Stored, Stored]), w)
    ensures Good(w) && w.resize.NoResize? && w.pool.cacheNum == 3 && Contents(w.pool) == map[0 := a, 1 := a, 2 := a]
  {
    FillStep(a);
    hide Good, Allowed, Contents, Update, Store;
    w := Step(Start(3), UpdateOp(0, [a, a, a], [Stored, Stored, Stored]));
    StepGood(Start(3), UpdateOp(0, [a, a, a], [Stored, Stored, Stored]));
  }

  lemma Shrunk(w: World) returns (w1: World, w2: World)
    requires Good(w) && w.resize.NoResize? && w.pool.cacheNum == 3
    ensures Does(w, SizeOp(2, false), w1) && Does(w1, TestOp, w2)
    ensures Good(w2) && w2.resize.Passed? && w2.pool == w.pool.(cacheSize := 2)
  {
    w1 := Step(w, SizeOp(2, false));
    SizeGood(w, 2, false);
    hide Good;
    w2 := Step(w1, TestOp);
    ReadsGood(w1, TestOp);
  }

  lemma Invalidated(w: World) returns (w1: World)
    requires Good(w)
    ensures Does(w, InvalidateOp(1, 2), w1) && Good(w1) && w1.resize == w.resize && w1.pool == Invalidate(w.pool, 1, 2)
  {
    w1 := Step(w, InvalidateOp(1, 2));
    hide Good, Invalidate, DropRange;
    StepGood(w, InvalidateOp(1, 2));
  }

  lemma InvalidatedRest(w1: World, w3: World, w4: World, a: Item)
    requires Good(w1) && Contents(w1.pool) == map[0 := a, 1 := a, 2 := a] && w3.pool == w1.pool.(cacheSize := 2)
    requires Good(w3) && w4.pool == Invalidate(w3.pool, 1, 2)
    ensures w4.pool.cacheNum == 1 && w4.pool.cacheSize == 2
  {
    hide WellFormed, RefsMatch, Indexed, Invalidate;
    ResizeAside(w1.pool, w1.held, 2);
    InvalidateSound(w3.pool, w3.held, 1, 2);
    StoreThree(a);
    NumOfContents(w4.pool);
  }

  /** Leaf lifetime: a leaf is released at most once over a whole run, never while it is cached
      or held, and it is released as soon as it is neither; the allocation counter is the
      number of cached leaves plus the deleted leaves still held. */
  lemma LeafLifetime(w: World, ops: seq<Op>, l: LeafId)
    requires Good(w) && AllowedRun(w, ops)
    ensures var e := Final(w, ops);
            && w.pool.released <= e.pool.released && NoDup(e.pool.released)
            && (l in e.pool.released <==> l < e.pool.nextId && l !in e.pool.lru && e.held[l] == 0)
            && e.pool.leafCnt == e.pool.cacheNum + |set m | m in e.pool.mem && IsDelete(e.pool.mem[m].word)|
  {
    var e := Final(w, ops);
    PoolLifetime(e.pool, e.held, l);
    LeafCount(e.pool);
  }

  lemma PoolLifetime(s: Pool, held: multiset<LeafId>, l: LeafId)
    requires WellFormed(s) && RefsMatch(s, held)
    ensures NoDup(s.released)
    ensures l in s.released <==> l < s.nextId && l !in s.lru && held[l] == 0
  {
  }

  lemma LeafCount(s: Pool)
    requires WellFormed(s)
    ensures s.leafCnt == s.cacheNum + |set m | m in s.mem && IsDelete(s.mem[m].word)|
  {
    hide WellFormed, IsDelete, NoDup;
    var dead := set m | m in s.mem && IsDelete(s.mem[m].word);
    var live := set m | m in s.lru;
    Counts(s);
    NoDupCard(s.lru, live);
    forall m: LeafId ensures (m in s.mem <==> m in live + dead) && (m !in live || m !in dead) {
      MemPart(s, m);
    }
    assert s.mem.Keys == live + dead;
    assert live !! dead;
  }

  lemma MemPart(s: Pool, m: LeafId)
    requires WellFormed(s)
    ensures m in s.mem <==> m in s.lru || (m in s.mem && IsDelete(s.mem[m].word))
    ensures m in s.lru ==> m in s.mem && !IsDelete(s.mem[m].word)
  {
  }

  lemma Counts(s: Pool)
    requires WellFormed(s)
    ensures NoDup(s.lru) && s.cacheNum == |s.lru| && s.leafCnt == |s.mem|
  {
  }

  // ---------------------------------------------------------------- conditional invalidation

  /** The whole conditional invalidation: a second pass, without the condition, runs when the
      first one met a referenced leaf. */
  ghost function ConditionalInvalidate(s: Pool, cmp: Item -> bool): Pool
    requires WellFormed(s)
  {
    var t := Kick(s, |s.lru|, None, cmp);
    if HeldMatch(s, |s.lru|, cmp) then Kick(t, |t.lru|, None, All) else t
  }

  /** It removes exactly the matching items if and only if no matching leaf is held, or nothing
      else was cached: otherwise the retry pass empties the pool. */
  lemma ConditionalExact(w: World, cmp: Item -> bool)
    requires Good(w)
    ensures var s, r := w.pool, ConditionalInvalidate(w.pool, cmp);
            && WellFormed(r)
            && ((Contents(r) == map k | k in Contents(s) && !cmp(Contents(s)[k]) :: Contents(s)[k])
                <==> (!HeldMatch(s, |s.lru|, cmp) || forall k :: k in Contents(s) ==> cmp(Contents(s)[k])))
            && (HeldMatch(s, |s.lru|, cmp) ==> Contents(r) == map[])
  {
    hide WellFormed, RefsMatch, Indexed, Contents, Kick, HeldMatch;
    var s := w.pool;
    SweepGood(w, cmp);
    var w1 := Step(w, SweepOp(cmp));
    var kept := map k | k in Contents(s) && !cmp(Contents(s)[k]) :: Contents(s)[k];
    if HeldMatch(s, |s.lru|, cmp) {
      SweepGood(w1, All);
      if k :| k in Contents(s) && !cmp(Contents(s)[k]) {
        assert k in kept;
      }
    }
  }

  // ---------------------------------------------------------------- all pools

  /** Invalidation by HBID goes through every pool of the manager. */
  ghost function InvalidateEverywhere(pools: seq<Pool>, h: Hbid): (r: seq<Pool>)
    requires forall i :: 0 <= i < |pools| ==> WellFormed(pools[i])
  {
    seq(|pools|, i requires 0 <= i < |pools| => InvalidateHbid(pools[i], h))
  }

  /** Afterwards no pool serves an item with that HBID. */
  lemma NoHbidLeft(pools: seq<Pool>, held: seq<multiset<LeafId>>, h: Hbid)
    requires |held| == |pools| && forall i :: 0 <= i < |pools| ==> WellFormed(pools[i]) && Sound(pools[i], held[i])
    ensures var r := InvalidateEverywhere(pools, h);
            && |r| == |pools|
            && forall i, k :: 0 <= i < |r| && k in r[i].tree ==>
                 Sound(r[i], held[i]) && r[i].mem[r[i].tree[k]].data.hbid != h
  {
    var r := InvalidateEverywhere(pools, h);
    hide WellFormed, RefsMatch, Indexed;
    forall i, k | 0 <= i < |r| && k in r[i].tree
      ensures Sound(r[i], held[i]) && r[i].tree[k] in r[i].mem && r[i].mem[r[i].tree[k]].data.hbid != h
    {
      InvalidateHbidSound(pools[i], held[i], h);
      CachedKey(r[i], k);
    }
  }

  /** Invalidation by an HBID removes nothing but items with that HBID exactly when every cached key
      listed under it has it. */
  lemma HbidExactly(s: Pool, held: multiset<LeafId>, h: Hbid)
    requires Sound(s, held)
    ensures var r := InvalidateHbid(s, h);
            && WellFormed(r)
            && ((forall k :: k in Contents(s) && k !in Contents(r) ==> Contents(s)[k].hbid == h)
                <==> (h in s.index ==> forall k :: k in s.index[h] && k in Contents(s) ==> Contents(s)[k].hbid == h))
  {
    hide WellFormed, RefsMatch, Indexed, Contents, InvalidateHbid;
    InvalidateHbidSound(s, held, h);
    var r := InvalidateHbid(s, h);
    if h in s.index && forall k :: k in Contents(s) && k !in Contents(r) ==> Contents(s)[k].hbid == h {
      forall k | k in s.index[h] && k in Contents(s) ensures Contents(s)[k].hbid == h {
        assert k !in Contents(r);
      }
    }
  }

  /** The listing may be stale: replacing an item leaves its key listed under the old HBID, so
      invalidating that HBID loses the new item as well. */
  lemma StaleListingLosesItem()
    ensures var s := Insert(Insert(EmptyPool(4), 7, Item(1, 0)), 7, Item(2, 0));
            && Sound(s, multiset{}) && Contents(s) == map[7 := Item(2, 0)]
            && Contents(InvalidateHbid(s, 1)) == map[]
  {
    hide WellFormed, RefsMatch, Indexed, Contents, Insert, InsertFresh;
    var e := EmptyPool(4);
    EmptyGood(4);
    EmptyContents(4);
    var a := Insert(e, 7, Item(1, 0));
    InsertSound(e, multiset{}, 7, Item(1, 0));
    InsertSound(a, multiset{}, 7, Item(2, 0));
    StaleListing();
    InvalidateHbidSound(Insert(a, 7, Item(2, 0)), multiset{}, 1);
  }

  lemma StaleListing()
    ensures var a := Insert(EmptyPool(4), 7, Item(1, 0));
            && 7 in a.tree && a.tree[7] in a.mem && a.tree[7] != a.nextId
            && Insert(a, 7, Item(2, 0)).index == map[1 := [7], 2 := [7]]
  {
    var a := Insert(EmptyPool(4), 7, Item(1, 0));
    assert a.index == map[1 := [7]];
  }

  lemma EmptyContents(size: Word)
    ensures WellFormed(EmptyPool(size)) && Contents(EmptyPool(size)) == map[]
  {
    EmptyGood(size);
  }
}
