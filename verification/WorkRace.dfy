/** How long a low-priority request waits in the worker queue. The round-robin index belongs to no
    lock: an adder stores it after its atomic increment, holding only the lock of its own bucket,
    and the worker reads and advances it before it takes any. Each move is one such section. */
module WorkRace {
  import opened Wrappers
  import opened Seqs
  import opened Buckets
  import opened WorkQueue

  /** The worker: idle; has read the index, which an adder may have overwritten since (`raced`); has
      advanced it and waits for the lock of the bucket it chose. */
  datatype Worker = Idle | Loaded(c: nat, raced: bool) | Picked(c: nat)

  datatype Race = Race(
    buckets: seq<seq<Id>>,
    deq: nat,                 // deq_bucket_idx
    size: int,                // wker_ReqQ_size
    hpSize: int,              // wker_HPReqQ_size
    redirect: Option<nat>,    // an adder has counted the first entry and not yet stored the index
    hpDue: bool,              // an adder has linked a high-priority entry and not yet counted it
    worker: Worker)

  const EMPTY := Race(seq(BUCKETS, _ => []), 0, 0, 0, None, false, Idle)

  /** An adder that is not done holds the lock of its bucket. */
  predicate Locked(s: Race, b: nat) { s.redirect == Some(b) || (b == HP_BUCKET && s.hpDue) }

  datatype Move = Link(bucket: nat, id: Id) | Store | Count | Unlink(bucket: nat, id: Id) | Load | Bump(v: nat) | Take

  function Next(c: nat): nat { (c + 1) % HASH_NUM }

  /** The index is incremented and masked in two unprotected read-modify-writes: a store in between
      is incremented, lost, or only masked, and after several any bucket may be left. */
  predicate Advances(c: nat, raced: bool, v: nat) { v == Next(c) || (raced && v < HASH_NUM) }

  ghost predicate Can(s: Race, m: Move) {
    match m
    case Link(b, id) => b < |s.buckets| && !Locked(s, b) && forall x :: 0 <= x < |s.buckets| ==> id !in s.buckets[x]
    case Store => s.redirect.Some?
    case Count => s.hpDue && s.redirect != Some(HP_BUCKET)
    case Unlink(b, id) => b < |s.buckets| && !Locked(s, b) && id in s.buckets[b]
    case Load => s.worker.Idle?
    case Bump(v) => s.worker.Loaded? && Advances(s.worker.c, s.worker.raced, v)
    case Take => s.worker.Picked? && s.worker.c < |s.buckets| && !Locked(s, s.worker.c)
  }

  function Gone(s: Race, b: nat, id: Id): Race
    requires b < |s.buckets|
  {
    s.(buckets := RemoveFrom(s.buckets, b, id), size := s.size - 1,
       hpSize := if b == HP_BUCKET then s.hpSize - 1 else s.hpSize)
  }

  function After(s: Race, m: Move): Race
    requires Can(s, m)
  {
    match m
    case Link(b, id) =>
      s.(buckets := AddTo(s.buckets, b, id), size := s.size + 1,
         redirect := if s.size + 1 == 1 then Some(b) else s.redirect, hpDue := b == HP_BUCKET || s.hpDue)
    case Store =>
      s.(deq := s.redirect.value, redirect := None,
         worker := if s.worker.Loaded? then s.worker.(raced := true) else s.worker)
    case Count => s.(hpSize := s.hpSize + 1, hpDue := false)
    case Unlink(b, id) => Gone(s, b, id)
    case Load => s.(worker := if s.hpSize > 0 then Picked(HP_BUCKET) else Loaded(s.deq, false))
    case Bump(v) => s.(deq := v, worker := Picked(s.worker.c))
    case Take =>
      var c, s1 := s.worker.c, s.(worker := Idle);
      if s.buckets[c] == [] then s1 else Gone(s1, c, s.buckets[c][0])
  }

  // ---------------------------------------------------------------- invariant

  ghost predicate Lists(s: Race) {
    && |s.buckets| == BUCKETS
    && (forall b :: 0 <= b < BUCKETS ==> NoDup(s.buckets[b]))
    && s.size == Total(s.buckets)
    && s.hpSize + (if s.hpDue then 1 else 0) == |s.buckets[HP_BUCKET]|
  }

  /** At most one index store is pending, and its adder's entry is still queued. */
  ghost predicate Index(s: Race) {
    && |s.buckets| == BUCKETS
    && s.deq <= HP_BUCKET
    && (s.redirect.Some? ==> s.redirect.value < BUCKETS && s.buckets[s.redirect.value] != [])
    && (s.worker.Loaded? ==> s.worker.c <= HP_BUCKET && (s.worker.raced || s.deq == s.worker.c))
    && (s.worker.Picked? ==> s.worker.c <= HP_BUCKET)
  }

  ghost predicate RaceOk(s: Race) { Lists(s) && Index(s) }

  lemma EmptyOk()
    ensures RaceOk(EMPTY)
  {
    TotalEmpty(BUCKETS);
  }

  lemma {:induction false} TotalEmpty(n: nat)
    ensures Total(seq(n, _ => [])) == 0
  {
    if n > 0 {
      TotalEmpty(n - 1);
      assert seq<seq<Id>>(n, _ => [])[..n - 1] == seq<seq<Id>>(n - 1, _ => []);
    }
  }

  lemma GoneOk(s: Race, b: nat, id: Id)
    requires Lists(s) && b < BUCKETS && id in s.buckets[b]
    ensures Lists(Gone(s, b, id))
  {
    WithoutMember(s.buckets[b], id);
    TotalUpdate(s.buckets, b, Without(s.buckets[b], id));
  }

  lemma MoveLists(s: Race, m: Move)
    requires Lists(s) && Can(s, m)
    ensures Lists(After(s, m))
  {
    match m
    case Link(b, id) => TotalUpdate(s.buckets, b, s.buckets[b] + [id]);
    case Unlink(b, id) => GoneOk(s, b, id);
    case Take =>
      if s.buckets[s.worker.c] != [] { GoneOk(s.(worker := Idle), s.worker.c, s.buckets[s.worker.c][0]); }
    case _ =>
  }

  lemma MoveOk(s: Race, m: Move)
    requires RaceOk(s) && Can(s, m)
    ensures RaceOk(After(s, m))
  {
    MoveLists(s, m);
    hide Lists, Total;
  }

  // ---------------------------------------------------------------- the wait

  /** A peek that reads no high-priority work. */
  predicate LowLoad(s: Race, m: Move) { m.Load? && s.hpSize <= 0 }

  function Position(s: seq<Id>, id: Id): nat
    requires id in s
    ensures Position(s, id) < |s| && s[Position(s, id)] == id
  {
    if s[0] == id then 0 else 1 + Position(s[1..], id)
  }

  /** Low peeks until bucket `b` is next: the index may have been left at the high-priority
      bucket, from where it continues at bucket 1. */
  function Distance(deq: nat, b: nat): nat
    requires deq <= HP_BUCKET && b < HASH_NUM
  {
    if deq < HASH_NUM then (b + HASH_NUM - deq) % HASH_NUM else 1 + (b + HASH_NUM - 1) % HASH_NUM
  }

  /** The distance once the peek under way has advanced the index; at worst 31 after a race. */
  function Ahead(s: Race, b: nat): nat
    requires Index(s) && b < HASH_NUM
  {
    if s.worker.Loaded? then (if s.worker.raced then 31 else Distance(Next(s.worker.c), b)) else Distance(s.deq, b)
  }

  predicate Choosing(s: Race, b: nat) { (s.worker.Loaded? || s.worker.Picked?) && s.worker.c == b }

  /** Low peeks still to begin before a queued request leaves, without a pending store. */
  function Rounds(s: Race, b: nat, id: Id): nat
    requires Index(s) && b < HASH_NUM && id in s.buckets[b]
  {
    var p := Position(s.buckets[b], id);
    if !Choosing(s, b) then HASH_NUM * p + Ahead(s, b) + 1
    else if p == 0 then 0
    else HASH_NUM * (p - 1) + Ahead(s, b) + 1
  }

  /** A pending store can throw the index back by one round. */
  function Wait(s: Race, b: nat, id: Id): nat
    requires Index(s) && b < HASH_NUM && id in s.buckets[b]
  {
    Rounds(s, b, id) + if s.redirect.Some? then HASH_NUM else 0
  }

  lemma DistanceStep(deq: nat, b: nat)
    requires deq <= HP_BUCKET && b < HASH_NUM
    ensures Distance(deq, b) <= 32 && (deq < HASH_NUM ==> Distance(deq, b) <= 31)
    ensures deq != b ==> Distance(deq, b) == Distance(Next(deq), b) + 1
    ensures deq == b ==> Distance(deq, b) == 0 && Distance(Next(deq), b) == 31
  {
  }

  lemma WaitBound(s: Race, b: nat, id: Id)
    requires Index(s) && b < HASH_NUM && id in s.buckets[b]
    ensures Wait(s, b, id) <= 32 * Position(s.buckets[b], id) + 33 + (if s.redirect.Some? then 32 else 0)
    ensures s.worker.Idle? ==> Wait(s, b, id) >= 1
  {
    DistanceStep(s.deq, b);
    if s.worker.Loaded? { DistanceStep(Next(s.worker.c), b); }
  }

  lemma {:induction false} PositionAppend(s: seq<Id>, x: Id, id: Id)
    requires id in s
    ensures id in s + [x] && Position(s + [x], id) == Position(s, id)
  {
    if s[0] != id {
      assert (s + [x])[1..] == s[1..] + [x];
      PositionAppend(s[1..], x, id);
    }
  }

  /** Unlinking another entry can only move a request forward, and does when it was the head. */
  lemma {:induction false} PositionWithout(s: seq<Id>, x: Id, id: Id)
    requires id in s && id != x
    ensures id in Without(s, x) && Position(Without(s, x), id) <= Position(s, id)
    ensures s[0] == x ==> Position(Without(s, x), id) == Position(s, id) - 1
  {
    if s[0] == x {
      assert id in s[1..];
    } else if s[0] != id {
      PositionWithout(s[1..], x, id);
      var w := Without(s[1..], x);
      assert ([s[0]] + w)[1..] == w;
    }
  }

  /** The worker's own moves. */
  lemma WorkerStep(s: Race, b: nat, id: Id, m: Move)
    requires RaceOk(s) && Can(s, m) && b < HASH_NUM && id in s.buckets[b]
    requires (m.Load? || m.Bump? || m.Store? || m.Count?)
    ensures Index(After(s, m)) && After(s, m).buckets == s.buckets
    ensures Wait(After(s, m), b, id) + (if LowLoad(s, m) then 1 else 0) <= Wait(s, b, id)
    ensures LowLoad(s, m) ==> Wait(After(s, m), b, id) + 1 == Wait(s, b, id)
  {
    hide Lists, Position, Distance;
    DistanceStep(s.deq, b);
    if m.Store? { DistanceStep(s.redirect.value, b); }
    if m.Bump? { DistanceStep(m.v, b); }
  }

  lemma RemovalStep(s: Race, t: Race, b: nat, id: Id, x: Id)
    requires RaceOk(s) && b < HASH_NUM && id in s.buckets[b] && id != x && Index(t)
    requires t.buckets[b] == Without(s.buckets[b], x) || t.buckets[b] == s.buckets[b]
    requires t.redirect == s.redirect && t.deq == s.deq
    requires t.worker == s.worker || (t.worker.Idle? && s.worker.Picked? &&
               (s.worker.c == b ==> s.buckets[b][0] == x && t.buckets[b] == Without(s.buckets[b], x)))
    ensures id in t.buckets[b] && Wait(t, b, id) <= Wait(s, b, id)
  {
    hide Lists, Position, Distance;
    PositionWithout(s.buckets[b], x, id);
  }

  /** No move of anyone makes a queued low-priority request wait longer, and every low peek that
      begins brings it one step closer. */
  lemma WaitStep(s: Race, b: nat, id: Id, m: Move)
    requires RaceOk(s) && Can(s, m) && b < HASH_NUM && id in s.buckets[b]
    ensures RaceOk(After(s, m))
    ensures id in After(s, m).buckets[b] ==>
            Wait(After(s, m), b, id) + (if LowLoad(s, m) then 1 else 0) <= Wait(s, b, id)
  {
    MoveOk(s, m);
    var t := After(s, m);
    match m
    case Link(c, x) =>
      LinkStep(s, b, id, m);
    case Unlink(c, x) =>
      UnlinkStep(s, b, id, m);
    case Take =>
      TakeStep(s, b, id);
    case _ =>
      WorkerStep(s, b, id, m);
  }

  /** While a request is queued the size is positive, so no further store becomes pending. */
  lemma LinkStep(s: Race, b: nat, id: Id, m: Move)
    requires RaceOk(s) && Can(s, m) && m.Link? && b < HASH_NUM && id in s.buckets[b] && Index(After(s, m))
    ensures id in After(s, m).buckets[b] && Wait(After(s, m), b, id) == Wait(s, b, id)
  {
    hide Position, Distance;
    TotalUpdate(s.buckets, b, []);
    PositionAppend(s.buckets[b], m.id, id);
  }

  lemma UnlinkStep(s: Race, b: nat, id: Id, m: Move)
    requires RaceOk(s) && Can(s, m) && m.Unlink? && b < HASH_NUM && id in s.buckets[b] && Index(After(s, m))
    ensures id in After(s, m).buckets[b] ==> Wait(After(s, m), b, id) <= Wait(s, b, id)
  {
    hide Position, Distance;
    WithoutMember(s.buckets[m.bucket], m.id);
    if id in After(s, m).buckets[b] {
      if m.bucket != b && m.id == id {
        assert After(s, m).buckets[b] == s.buckets[b];
      } else {
        RemovalStep(s, After(s, m), b, id, m.id);
      }
    }
  }

  lemma TakeStep(s: Race, b: nat, id: Id)
    requires RaceOk(s) && Can(s, Take) && b < HASH_NUM && id in s.buckets[b] && Index(After(s, Take))
    ensures id in After(s, Take).buckets[b] ==> Wait(After(s, Take), b, id) <= Wait(s, b, id)
  {
    hide Position, Distance;
    var c := s.worker.c;
    if c != b {
      assert After(s, Take).buckets[b] == s.buckets[b];
    } else {
      WithoutMember(s.buckets[b], s.buckets[b][0]);
      if id in After(s, Take).buckets[b] { RemovalStep(s, After(s, Take), b, id, s.buckets[b][0]); }
    }
  }

  // ---------------------------------------------------------------- runs

  /** The moves lead from `s` to `t`, and the request is queued all the way. */
  ghost predicate Stays(s: Race, b: nat, id: Id, ms: seq<Move>, t: Race)
    decreases |ms|
  {
    && b < |s.buckets| && id in s.buckets[b]
    && if ms == [] then t == s else Can(s, ms[0]) && Stays(After(s, ms[0]), b, id, ms[1..], t)
  }

  ghost function LowPeeks(s: Race, ms: seq<Move>): nat
    decreases |ms|
  {
    if ms == [] || !Can(s, ms[0]) then 0
    else (if LowLoad(s, ms[0]) then 1 else 0) + LowPeeks(After(s, ms[0]), ms[1..])
  }

  /** Bounded wait: whatever is added, removed, stored and peeked in between, a low-priority request
      at position p of its bucket is no longer queued after 32 p + 33 peeks that find no
      high-priority work; 32 more if an index store was pending. */
  lemma {:induction false} BoundedWait(s: Race, b: nat, id: Id, ms: seq<Move>, t: Race)
    requires RaceOk(s) && b < HASH_NUM && Stays(s, b, id, ms, t)
    ensures RaceOk(t) && id in t.buckets[b] && LowPeeks(s, ms) + Wait(t, b, id) <= Wait(s, b, id)
    ensures Wait(s, b, id) <= 32 * Position(s.buckets[b], id) + 33 + (if s.redirect.Some? then 32 else 0)
    ensures t.worker.Idle? ==> LowPeeks(s, ms) < Wait(s, b, id)
    decreases |ms|
  {
    WaitBound(s, b, id);
    if ms == [] {
    } else {
      WaitStep(s, b, id, ms[0]);
      hide RaceOk, Wait, Can, After;
      BoundedWait(After(s, ms[0]), b, id, ms[1..], t);
    }
    WaitPositive(t, b, id);
  }

  lemma WaitPositive(t: Race, b: nat, id: Id)
    requires RaceOk(t) && b < HASH_NUM && id in t.buckets[b]
    ensures t.worker.Idle? ==> Wait(t, b, id) >= 1
  {
    WaitBound(t, b, id);
  }

  // ---------------------------------------------------------------- high priority

  /** The request is linked in the high-priority bucket and counted. */
  ghost predicate Counted(s: Race, id: Id) {
    && RaceOk(s) && id in s.buckets[HP_BUCKET]
    && (s.hpDue ==> Position(s.buckets[HP_BUCKET], id) < |s.buckets[HP_BUCKET]| - 1)
  }

  /** The requests before it, and one for a peek under way that looks elsewhere. */
  function Before(s: Race, id: Id): nat
    requires |s.buckets| == BUCKETS && id in s.buckets[HP_BUCKET]
  {
    Position(s.buckets[HP_BUCKET], id) + if s.worker.Idle? || s.worker.c == HP_BUCKET then 0 else 1
  }

  function Takes(ms: seq<Move>): nat { if ms == [] then 0 else (if ms[0].Take? then 1 else 0) + Takes(ms[1..]) }

  lemma HighLinks(s: Race, id: Id, m: Move)
    requires Counted(s, id) && Can(s, m) && (m.Link? || m.Unlink?) && RaceOk(After(s, m))
    requires id in After(s, m).buckets[HP_BUCKET]
    ensures Counted(After(s, m), id) && Before(After(s, m), id) <= Before(s, id)
  {
    hide Position, Lists, Index;
    HighNoDup(s);
    if m.Link? {
      PositionAppend(s.buckets[HP_BUCKET], m.id, id);
    } else if m.bucket == HP_BUCKET {
      WithoutMember(s.buckets[HP_BUCKET], m.id);
      PositionWithout(s.buckets[HP_BUCKET], m.id, id);
    }
  }

  lemma HighNoDup(s: Race)
    requires RaceOk(s)
    ensures NoDup(s.buckets[HP_BUCKET]) && |s.buckets| == BUCKETS
    ensures s.hpSize + (if s.hpDue then 1 else 0) == |s.buckets[HP_BUCKET]|
  {
  }

  lemma HighTake(s: Race, id: Id)
    requires Counted(s, id) && Can(s, Take) && RaceOk(After(s, Take)) && id in After(s, Take).buckets[HP_BUCKET]
    ensures Counted(After(s, Take), id) && Before(After(s, Take), id) + 1 == Before(s, id)
  {
    hide Position, Lists, Index;
    HighNoDup(s);
    if s.worker.c == HP_BUCKET {
      var x := s.buckets[HP_BUCKET][0];
      WithoutMember(s.buckets[HP_BUCKET], x);
      PositionWithout(s.buckets[HP_BUCKET], x, id);
    }
  }

  /** While a counted high-priority request is queued no peek that begins looks elsewhere, no move lets
      it wait longer, and every take brings it one step closer. */
  lemma HighStep(s: Race, id: Id, m: Move)
    requires Counted(s, id) && Can(s, m)
    ensures RaceOk(After(s, m)) && !LowLoad(s, m)
    ensures id in After(s, m).buckets[HP_BUCKET] ==>
              Counted(After(s, m), id) && Before(After(s, m), id) + (if m.Take? then 1 else 0) <= Before(s, id)
  {
    MoveOk(s, m);
    HighNoDup(s);
    if id in After(s, m).buckets[HP_BUCKET] {
      if m.Take? {
        HighTake(s, id);
      } else if m.Link? || m.Unlink? {
        HighLinks(s, id, m);
      } else {
        hide Position, Lists, Index;
      }
    }
  }

  /** High priority: whatever is added, removed, stored and peeked in between, a counted high-priority
      request leaves after as many takes as there are high-priority requests before it, and one for a
      peek that had begun elsewhere. No low-priority peek begins while it is queued. */
  lemma {:induction false} HighWait(s: Race, id: Id, ms: seq<Move>, t: Race)
    requires Counted(s, id) && Stays(s, HP_BUCKET, id, ms, t)
    ensures Counted(t, id) && Takes(ms) + Before(t, id) <= Before(s, id) && LowPeeks(s, ms) == 0
    ensures Before(s, id) <= Position(s.buckets[HP_BUCKET], id) + 1
    decreases |ms|
  {
    if ms != [] {
      HighStep(s, id, ms[0]);
      hide Counted, Before, Can, After;
      HighWait(After(s, ms[0]), id, ms[1..], t);
    }
  }

  // ---------------------------------------------------------------- the bound is met

  lemma StaysCons(s: Race, b: nat, id: Id, m: Move, ms: seq<Move>, t: Race)
    requires b < |s.buckets| && id in s.buckets[b] && Can(s, m) && Stays(After(s, m), b, id, ms, t)
    ensures Stays(s, b, id, [m] + ms, t)
    ensures LowPeeks(s, [m] + ms) == (if LowLoad(s, m) then 1 else 0) + LowPeeks(After(s, m), ms)
  {
    assert ([m] + ms)[1..] == ms;
  }

  lemma {:induction false} StaysAppend(s: Race, b: nat, id: Id, ms: seq<Move>, t: Race, ns: seq<Move>, u: Race)
    requires Stays(s, b, id, ms, t) && Stays(t, b, id, ns, u)
    ensures Stays(s, b, id, ms + ns, u) && LowPeeks(s, ms + ns) == LowPeeks(s, ms) + LowPeeks(t, ns)
    decreases |ms|
  {
    hide Can, After;
    if ms == [] {
      assert ms + ns == ns;
    } else {
      StaysAppend(After(s, ms[0]), b, id, ms[1..], t, ns, u);
      assert (ms + ns)[1..] == ms[1..] + ns;
    }
  }

  /** Nothing but low peeks can happen next. */
  predicate Quiet(s: Race) { s.worker.Idle? && s.hpSize == 0 }

  /** The bucket looked at by the `k`-th of a row of undisturbed low peeks. */
  function Visit(deq: nat, k: nat): nat { if k == 0 then deq else (deq + k) % HASH_NUM }

  /** One undisturbed low peek that does not yet reach the request. */
  lemma OnePeek(s: Race, b: nat, id: Id) returns (t: Race)
    requires RaceOk(s) && Quiet(s) && b < HASH_NUM && id in s.buckets[b] && !Locked(s, s.deq) && Rounds(s, b, id) > 1
    ensures Stays(s, b, id, [Load, Bump(Next(s.deq)), Take], t) && LowPeeks(s, [Load, Bump(Next(s.deq)), Take]) == 1
    ensures RaceOk(t) && Quiet(t) && id in t.buckets[b] && Rounds(t, b, id) == Rounds(s, b, id) - 1
    ensures t.deq == Next(s.deq) && t.redirect == s.redirect && t.hpDue == s.hpDue
  {
    var s1 := After(s, Load);
    var s2 := After(s1, Bump(Next(s.deq)));
    t := After(s2, Take);
    PeekMoves(s, b, id, s1, s2, t);
    MoveOk(s, Load);
    MoveOk(s1, Bump(Next(s.deq)));
    MoveOk(s2, Take);
    hide Can, After, RaceOk, Rounds, Locked;
    assert Stays(t, b, id, [], t) && LowPeeks(t, []) == 0;
    StaysCons(s2, b, id, Take, [], t);
    StaysCons(s1, b, id, Bump(Next(s.deq)), [Take] + [], t);
    StaysCons(s, b, id, Load, [Bump(Next(s.deq))] + ([Take] + []), t);
    assert [Load] + ([Bump(Next(s.deq))] + ([Take] + [])) == [Load, Bump(Next(s.deq)), Take];
  }

  lemma PeekMoves(s: Race, b: nat, id: Id, s1: Race, s2: Race, t: Race)
    requires RaceOk(s) && Quiet(s) && b < HASH_NUM && id in s.buckets[b] && !Locked(s, s.deq) && Rounds(s, b, id) > 1
    requires s1 == s.(worker := Loaded(s.deq, false)) && s2 == s1.(deq := Next(s.deq), worker := Picked(s.deq))
    requires Can(s2, Take) && t == After(s2, Take)
    ensures t.deq == Next(s.deq) && t.redirect == s.redirect && t.hpDue == s.hpDue && Quiet(t)
    ensures Index(t) && id in t.buckets[b] && Rounds(t, b, id) == Rounds(s, b, id) - 1
  {
    hide Position, Distance;
    DistanceStep(s.deq, b);
    var c := s.deq;
    if s.buckets[c] != [] {
      WithoutMember(s.buckets[c], s.buckets[c][0]);
      if c == b { PositionWithout(s.buckets[b], s.buckets[b][0], id); }
    }
    assert s.hpSize + (if s.hpDue then 1 else 0) == |s.buckets[HP_BUCKET]|;
  }

  /** Undisturbed, a request is still queued after every number of low peeks below its count, as long
      as they meet no locked bucket: the bound is exact in every state. */
  lemma {:induction false} ExactWait(s: Race, b: nat, id: Id, n: nat) returns (ms: seq<Move>, t: Race)
    requires RaceOk(s) && Quiet(s) && b < HASH_NUM && id in s.buckets[b] && n < Rounds(s, b, id)
    requires forall k :: 0 <= k < n ==> !Locked(s, Visit(s.deq, k))
    ensures Stays(s, b, id, ms, t) && LowPeeks(s, ms) == n
    ensures RaceOk(t) && Quiet(t) && id in t.buckets[b] && Rounds(t, b, id) == Rounds(s, b, id) - n
    ensures t.redirect == s.redirect && t.deq == Visit(s.deq, n)
    decreases n
  {
    assert |s.buckets| == BUCKETS;
    hide RaceOk, Rounds, Can, After;
    if n == 0 {
      ms, t := [], s;
    } else {
      assert !Locked(s, Visit(s.deq, 0));
      var u := OnePeek(s, b, id);
      forall k | 0 <= k < n - 1 ensures !Locked(u, Visit(u.deq, k)) {
        VisitNext(s.deq, k);
        assert !Locked(s, Visit(s.deq, k + 1));
      }
      var ns;
      ns, t := ExactWait(u, b, id, n - 1);
      VisitNext(s.deq, n - 1);
      ms := [Load, Bump(Next(s.deq)), Take] + ns;
      StaysAppend(s, b, id, [Load, Bump(Next(s.deq)), Take], u, ns, t);
    }
  }

  lemma VisitNext(deq: nat, k: nat)
    ensures Visit(Next(deq), k) == Visit(deq, k + 1)
  {
  }

  /** At the head of bucket 0, with the index left at the high-priority bucket and no adder at work,
      32 low peeks leave the request queued; so 33 are needed. */
  lemma BoundIsTight(s: Race, id: Id) returns (ms: seq<Move>, t: Race)
    requires RaceOk(s) && Quiet(s) && s.redirect.None? && !s.hpDue && s.deq == HP_BUCKET
    requires s.buckets[0] != [] && s.buckets[0][0] == id
    ensures Stays(s, 0, id, ms, t) && LowPeeks(s, ms) == 32 && Wait(s, 0, id) == 33
  {
    assert Rounds(s, 0, id) == 33;
    ms, t := ExactWait(s, 0, id, 32);
  }

  /** From the empty queue: an adder of bucket 21 is first and stalls before its store, a request is
      added at the head of bucket 20, twenty low peeks pass, the store throws the index back, and
      after 31 more the request is still queued: 51 peeks, not 32. */
  lemma StalledStoreExceeds() returns (s: Race, ms: seq<Move>, t: Race)
    ensures Can(EMPTY, Link(21, 21)) && s == After(EMPTY, Link(21, 21)) && Can(s, Link(20, 20))
    ensures Stays(After(s, Link(20, 20)), 20, 20, ms, t) && LowPeeks(After(s, Link(20, 20)), ms) == 51
    ensures Position(After(s, Link(20, 20)).buckets[20], 20) == 0
  {
    EmptyOk();
    s := After(EMPTY, Link(21, 21));
    MoveOk(EMPTY, Link(21, 21));
    var q := After(s, Link(20, 20));
    MoveOk(s, Link(20, 20));
    assert q.buckets[20] == [20] && q.deq == 0 && q.redirect == Some(21) && Quiet(q);
    assert Rounds(q, 20, 20) == 21;
    var m1, q1 := ExactWait(q, 20, 20, 20);
    var q2 := After(q1, Store);
    MoveOk(q1, Store);
    assert q2.deq == 21 && Rounds(q1, 20, 20) == 1;
    AfterStore(q1);
    var m3;
    m3, t := ExactWait(q2, 20, 20, 31);
    hide Can, After, RaceOk, Rounds;
    StaysCons(q1, 20, 20, Store, m3, t);
    StaysAppend(q, 20, 20, m1, q1, [Store] + m3, t);
    ms := m1 + ([Store] + m3);
  }

  lemma AfterStore(q: Race)
    requires RaceOk(q) && Quiet(q) && q.redirect == Some(21) && 20 in q.buckets[20] && Rounds(q, 20, 20) == 1
    ensures Index(After(q, Store)) && Rounds(After(q, Store), 20, 20) == 32
  {
    hide Position;
    assert Distance(21, 20) == 31;
  }
}
