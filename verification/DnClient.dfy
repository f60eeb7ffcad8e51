/** All requests of the datanode client with the lists they are linked on: the hash pool, the
    worker queue and the retry lists of the reconnect threads. A step is one critical section of
    one thread on one request. */
module DnClient {
  import opened Wrappers
  import opened Seqs
  import opened Buckets
  import opened WorkQueue
  import opened RequestFsm
  import opened Request

  const POOL_BUCKETS: nat := 4001

  datatype Client = Client(
    reqs: map<Id, Req>,
    pool: seq<seq<Id>>,
    poolNum: int,                // num_DNUDReq
    queue: Queue,
    retry: map<nat, seq<Id>>)    // the local list of each reconnect thread

  function EmptyClient(): Client {
    Client(map[], seq(POOL_BUCKETS, _ => []), 0, EmptyQueue(), map[])
  }

  function PoolBucket(id: Id): nat { id % POOL_BUCKETS }

  /** Which requests are linked where, as their records say. */
  ghost function PoolHome(reqs: map<Id, Req>): map<Id, nat> {
    map id | id in reqs && reqs[id].inPool :: PoolBucket(id)
  }

  ghost function QueueHome(reqs: map<Id, Req>): map<Id, nat> {
    map id | id in reqs && reqs[id].queueBit :: BucketOf(id, reqs[id].high)
  }

  ghost predicate RetryLists(reqs: map<Id, Req>, retry: map<nat, seq<Id>>) {
    && (forall t :: t in retry ==> NoDup(retry[t]))
    && (forall t, id :: t in retry ==> (id in retry[t] <==> id in reqs && reqs[id].onRetry == Some(t)))
    && (forall id :: id in reqs && reqs[id].onRetry.Some? ==> reqs[id].onRetry.value in retry)
  }

  ghost predicate AllInv(reqs: map<Id, Req>) {
    forall id :: id in reqs ==> Inv(reqs[id])
  }

  ghost predicate PoolOk(c: Client) {
    |c.pool| == POOL_BUCKETS && Hashed(c.pool, PoolHome(c.reqs)) && c.poolNum == |PoolHome(c.reqs)|
  }

  ghost predicate QueueLinked(c: Client) {
    Shaped(c.queue) && Hashed(c.queue.buckets, QueueHome(c.reqs)) && c.queue.size == |QueueHome(c.reqs)|
  }

  ghost predicate ClientInv(c: Client) {
    AllInv(c.reqs) && PoolOk(c) && QueueLinked(c) && RetryLists(c.reqs, c.retry)
  }

  // ---------------------------------------------------------------- steps

  datatype ClientStep =
    | New(id: Id, high: bool, caller: nat, addr: nat, plain: bool)
    | On(id: Id, e: Step)
    | Peek

  /** The request a peek would take, if any. */
  function Peeked(c: Client): Option<Id>
    requires |c.queue.buckets| == BUCKETS && c.queue.deq < BUCKETS
  {
    var b := PeekBucket(c.queue);
    if c.queue.buckets[b] == [] then None else Some(c.queue.buckets[b][0])
  }

  /** A new request gets an unused id; a retry list is emptied from its head; a peek goes through
      the queue and not straight to a request. */
  ghost predicate Allowed(c: Client, s: ClientStep) {
    match s
    case New(id, _, _, _, _) => id !in c.reqs
    case On(id, e) =>
      && id in c.reqs && Can(c.reqs[id], e) && !e.PeekStep?
      && (e.TakeRetry? ==>
            var t := c.reqs[id].onRetry.value; t in c.retry && c.retry[t] != [] && c.retry[t][0] == id)
    case Peek => true
  }

  /** What a step on request `id`, now `r'`, does to the lists. */
  function PoolAfter(c: Client, id: Id, r: Req, r': Req): (seq<seq<Id>>, int)
    requires |c.pool| == POOL_BUCKETS
  {
    if r.inPool && !r'.inPool then (RemoveFrom(c.pool, PoolBucket(id), id), c.poolNum - 1) else (c.pool, c.poolNum)
  }

  function QueueAfter(c: Client, id: Id, r: Req, e: Step): Queue
    requires |c.queue.buckets| == BUCKETS
  {
    var b := BucketOf(id, r.high);
    if e.SubmitEnqueue? || e.RetryEnqueue? then if r.queueBit then c.queue else Add(c.queue, b, id)
    else if e.CancelUnqueue? then if r.queueBit then Remove(c.queue, b, id) else c.queue
    else c.queue
  }

  function RetryAfter(c: Client, id: Id, r: Req, r': Req): map<nat, seq<Id>> {
    if r.onRetry == r'.onRetry then c.retry
    else if r'.onRetry.Some? then
      var t := r'.onRetry.value;
      c.retry[t := (if t in c.retry then c.retry[t] else []) + [id]]
    else if r.onRetry.value in c.retry && c.retry[r.onRetry.value] != [] then
      c.retry[r.onRetry.value := c.retry[r.onRetry.value][1..]]
    else c.retry
  }

  function StepOn(c: Client, id: Id, e: Step): Client
    requires |c.pool| == POOL_BUCKETS && |c.queue.buckets| == BUCKETS && id in c.reqs && Can(c.reqs[id], e)
  {
    var r := c.reqs[id];
    var r' := After(r, e);
    var (pool, num) := PoolAfter(c, id, r, r');
    Client(c.reqs[id := r'], pool, num, QueueAfter(c, id, r, e), RetryAfter(c, id, r, r'))
  }

  function Do(c: Client, s: ClientStep): Client
    requires ClientInv(c) && Allowed(c, s)
  {
    match s
    case New(id, high, caller, addr, plain) =>
      c.(reqs := c.reqs[id := NewReq(high, caller, addr, plain)],
         pool := AddTo(c.pool, PoolBucket(id), id), poolNum := c.poolNum + 1)
    case On(id, e) => StepOn(c, id, e)
    case Peek =>
      var q := WorkQueue.Peek(c.queue);
      match Peeked(c)
      case None => c.(queue := q)
      case Some(id) =>
        PeekedIsQueued(c);
        c.(reqs := c.reqs[id := After(c.reqs[id], PeekStep)], queue := q)
  }

  lemma PeekedIsQueued(c: Client)
    requires QueueLinked(c)
    ensures Peeked(c).Some? ==>
              var id := Peeked(c).value;
              id in c.reqs && c.reqs[id].queueBit && BucketOf(id, c.reqs[id].high) == PeekBucket(c.queue)
  {
    var b := PeekBucket(c.queue);
    if c.queue.buckets[b] != [] {
      var id := c.queue.buckets[b][0];
      assert id in c.queue.buckets[b];
      assert id in QueueHome(c.reqs) && QueueHome(c.reqs)[id] == b;
    }
  }

  // ---------------------------------------------------------------- invariant

  lemma EmptyInv()
    ensures ClientInv(EmptyClient())
  {
    var c := EmptyClient();
    assert PoolHome(c.reqs) == map[] && QueueHome(c.reqs) == map[];
  }

  lemma AllInvUpdate(reqs: map<Id, Req>, id: Id, r: Req)
    requires AllInv(reqs) && Inv(r)
    ensures AllInv(reqs[id := r])
  {
    hide Inv;
  }

  /** The bits of a request and the pool change together. */
  lemma PoolStep(c: Client, id: Id, r': Req)
    requires PoolOk(c) && id in c.reqs && (r'.inPool ==> c.reqs[id].inPool)
    ensures var (pool, num) := PoolAfter(c, id, c.reqs[id], r');
            PoolOk(c.(reqs := c.reqs[id := r'], pool := pool, poolNum := num))
  {
    var h, h' := PoolHome(c.reqs), PoolHome(c.reqs[id := r']);
    if c.reqs[id].inPool && !r'.inPool {
      RemoveHashed(c.pool, h, id);
      assert h' == h - {id};
    } else {
      assert h' == h;
    }
    hide PoolHome, Hashed;
  }

  /** Adding, removing or keeping an entry of the worker queue. */
  lemma QueueAdded(c: Client, id: Id, r': Req)
    requires QueueLinked(c) && id in c.reqs && !c.reqs[id].queueBit && r'.queueBit
    ensures QueueLinked(c.(reqs := c.reqs[id := r'], queue := Add(c.queue, BucketOf(id, r'.high), id)))
  {
    var h, b := QueueHome(c.reqs), BucketOf(id, r'.high);
    AddHashed(c.queue.buckets, h, b, id);
    assert QueueHome(c.reqs[id := r']) == h[id := b];
  }

  lemma QueueRemoved(c: Client, id: Id, r': Req)
    requires QueueLinked(c) && id in c.reqs && c.reqs[id].queueBit && !r'.queueBit
    ensures QueueLinked(c.(reqs := c.reqs[id := r'], queue := Remove(c.queue, BucketOf(id, c.reqs[id].high), id)))
  {
    var h, b := QueueHome(c.reqs), BucketOf(id, c.reqs[id].high);
    RemoveHashed(c.queue.buckets, h, id);
    HomeBucket(c.queue.buckets, h, id, b);
    WithoutMember(c.queue.buckets[b], id);
    hide Hashed;
    assert QueueHome(c.reqs[id := r']) == h - {id};
  }

  lemma QueueKept(c: Client, id: Id, r': Req)
    requires QueueLinked(c) && id in c.reqs && r'.high == c.reqs[id].high && r'.queueBit == c.reqs[id].queueBit
    ensures QueueLinked(c.(reqs := c.reqs[id := r']))
  {
    assert QueueHome(c.reqs[id := r']) == QueueHome(c.reqs);
  }

  lemma QueueStep(c: Client, id: Id, r': Req, q: Queue)
    requires QueueLinked(c) && id in c.reqs && r'.high == c.reqs[id].high
    requires var r, b := c.reqs[id], BucketOf(id, c.reqs[id].high);
             || (r'.queueBit == r.queueBit && q == c.queue)
             || (r'.queueBit && !r.queueBit && q == Add(c.queue, b, id))
             || (!r'.queueBit && r.queueBit && q == Remove(c.queue, b, id))
    ensures QueueLinked(c.(reqs := c.reqs[id := r'], queue := q))
  {
    hide QueueLinked;
    if r'.queueBit == c.reqs[id].queueBit {
      QueueKept(c, id, r');
    } else if r'.queueBit {
      QueueAdded(c, id, r');
    } else {
      QueueRemoved(c, id, r');
    }
  }

  lemma RetryStepLists(c: Client, id: Id, r': Req)
    requires RetryLists(c.reqs, c.retry) && id in c.reqs
    requires var r := c.reqs[id];
             || r'.onRetry == r.onRetry
             || (r.onRetry.None? && r'.onRetry.Some?)
             || (r.onRetry.Some? && r'.onRetry.None? && c.retry[r.onRetry.value] != []
                 && c.retry[r.onRetry.value][0] == id)
    ensures RetryLists(c.reqs[id := r'], RetryAfter(c, id, c.reqs[id], r'))
  {
    var r, l' := c.reqs[id], RetryAfter(c, id, c.reqs[id], r');
    if r.onRetry != r'.onRetry && r'.onRetry.Some? {
      var t := r'.onRetry.value;
      var l := if t in c.retry then c.retry[t] else [];
      assert forall x :: x in l' [t] <==> x in l || x == id;
      assert id !in l;
    } else if r.onRetry != r'.onRetry {
      var t := r.onRetry.value;
      assert c.retry[t] == [id] + c.retry[t][1..];
      assert forall x :: x in c.retry[t] <==> x == id || x in c.retry[t][1..];
    }
  }

  /** What a step can do to the bits that mirror the lists. */
  ghost predicate Bits(r: Req, e: Step, r': Req) {
    && r'.high == r.high
    && (r'.inPool ==> r.inPool)
    && (if e.SubmitEnqueue? || e.RetryEnqueue? then !r.queueBit && r'.queueBit
        else if e.CancelUnqueue? || e.PeekStep? then !r'.queueBit
        else r'.queueBit == r.queueBit)
    && (r'.onRetry == r.onRetry || (r.onRetry.None? && r'.onRetry.Some?) || (e.TakeRetry? && r'.onRetry.None?))
  }

  lemma SendBits(r: Req, e: Step)
    requires Inv(r) && Can(r, e) && SendPath(e)
    ensures Bits(r, e, After(r, e))
  {
    AfterIs(r, e);
    hide ClaimPart, RefPart, After;
  }

  lemma EndBits(r: Req, e: Step)
    requires Can(r, e) && (AckPath(e) || CancelPath(e))
    ensures Bits(r, e, After(r, e))
  {
    if AckPath(e) { AckFrame(r, e); } else { CancelFrame(r, e); }
    hide Can, After;
  }

  lemma RetryBits(r: Req, e: Step)
    requires Inv(r) && Can(r, e) && RetryPath(e)
    ensures Bits(r, e, After(r, e))
  {
    AfterIs(r, e);
    hide ClaimPart, RefPart, After;
  }

  lemma BitsAfter(r: Req, e: Step)
    requires Inv(r) && Can(r, e)
    ensures Bits(r, e, After(r, e))
  {
    hide Inv, Can, After, Bits;
    if SendPath(e) {
      SendBits(r, e);
    } else if RetryPath(e) {
      RetryBits(r, e);
    } else {
      EndBits(r, e);
    }
  }

  lemma OnInv(c: Client, id: Id, e: Step)
    requires ClientInv(c) && Allowed(c, On(id, e))
    ensures ClientInv(StepOn(c, id, e))
  {
    hide Inv, Can, After, Hashed, RetryLists, PoolHome, QueueHome;
    var r := c.reqs[id];
    var r' := After(r, e);
    StepInv(r, e);
    BitsAfter(r, e);
    AllInvUpdate(c.reqs, id, r');
    PoolStep(c, id, r');
    QueueStep(c, id, r', QueueAfter(c, id, r, e));
    RetryStepLists(c, id, r');
  }

  lemma NewStepInv(c: Client, id: Id, high: bool, caller: nat, addr: nat, plain: bool)
    requires ClientInv(c) && id !in c.reqs
    ensures ClientInv(Do(c, New(id, high, caller, addr, plain)))
  {
    var n := NewReq(high, caller, addr, plain);
    NewInv(high, caller, addr, plain);
    hide Inv, Hashed, RetryLists, PoolHome, QueueHome;
    AllInvUpdate(c.reqs, id, n);
    NewPool(c, id, n);
    NewLists(c.reqs, c.retry, id, n);
  }

  lemma NewPool(c: Client, id: Id, n: Req)
    requires PoolOk(c) && id !in c.reqs && n.inPool
    ensures PoolOk(c.(reqs := c.reqs[id := n], pool := AddTo(c.pool, PoolBucket(id), id), poolNum := c.poolNum + 1))
  {
    AddHashed(c.pool, PoolHome(c.reqs), PoolBucket(id), id);
    assert PoolHome(c.reqs[id := n]) == PoolHome(c.reqs)[id := PoolBucket(id)];
  }

  lemma NewLists(reqs: map<Id, Req>, retry: map<nat, seq<Id>>, id: Id, n: Req)
    requires RetryLists(reqs, retry) && id !in reqs && !n.queueBit && n.onRetry.None?
    ensures RetryLists(reqs[id := n], retry)
    ensures QueueHome(reqs[id := n]) == QueueHome(reqs)
  {
  }

  lemma PeekInv(c: Client)
    requires ClientInv(c)
    ensures ClientInv(Do(c, Peek))
  {
    hide Inv, After, Hashed, RetryLists, PoolHome, QueueHome;
    var q1 := c.queue.(deq := NextDeq(c.queue));
    var c1 := c.(queue := q1);
    match Peeked(c)
    case None =>
    case Some(id) =>
      PeekedIsQueued(c);
      var r := c.reqs[id];
      var r' := After(r, PeekStep);
      StepInv(r, PeekStep);
      BitsAfter(r, PeekStep);
      PeekBits(r);
      AllInvUpdate(c.reqs, id, r');
      PoolStep(c, id, r');
      QueueStep(c1, id, r', Remove(q1, BucketOf(id, r.high), id));
      RetryStepLists(c, id, r');
  }

  lemma PeekBits(r: Req)
    requires Can(r, PeekStep)
    ensures var r' := After(r, PeekStep); r'.inPool == r.inPool && r'.onRetry == r.onRetry
  {
  }

  /** Every step of every thread keeps all requests and all lists consistent. */
  lemma DoInv(c: Client, s: ClientStep)
    requires ClientInv(c) && Allowed(c, s)
    ensures ClientInv(Do(c, s))
  {
    hide ClientInv, Allowed;
    match s
    case New(id, high, caller, addr, plain) => AllowedIs(c, s); NewStepInv(c, id, high, caller, addr, plain);
    case On(id, e) => OnInv(c, id, e);
    case Peek => PeekInv(c);
  }

  lemma AllowedIs(c: Client, s: ClientStep)
    requires Allowed(c, s) && s.New?
    ensures s.id !in c.reqs
  {
  }

  // ---------------------------------------------------------------- runs

  ghost predicate AllowedRun(c: Client, ss: seq<ClientStep>)
    requires ClientInv(c)
    decreases |ss|
  {
    ss == [] ||
    (Allowed(c, ss[0]) && (DoInv(c, ss[0]); AllowedRun(Do(c, ss[0]), ss[1..])))
  }

  ghost function Final(c: Client, ss: seq<ClientStep>): (r: Client)
    requires ClientInv(c) && AllowedRun(c, ss)
    ensures ClientInv(r)
    decreases |ss|
  {
    if ss == [] then c
    else
      DoInv(c, ss[0]);
      Final(Do(c, ss[0]), ss[1..])
  }

  /** What is promised about a request and the lists it may be on. */
  ghost predicate Safe(c: Client, id: Id)
    requires id in c.reqs && |c.pool| == POOL_BUCKETS && |c.queue.buckets| == BUCKETS
  {
    var r := c.reqs[id];
    && r.frees <= r.ackClaims + r.cancelClaims <= 1
    && (id in c.pool[id % 4001] <==> r.ackClaims + r.cancelClaims == 0)
    && (id in c.pool[id % 4001] ==> r.poolBit)
    && c.poolNum == Total(c.pool)
    && (id in c.queue.buckets[if r.high then 32 else id % 32] <==> r.queueBit)
    && (r.queueBit ==> (r.st.WaitSend? || r.st.CancelReq?) && forall t :: t in c.retry ==> id !in c.retry[t])
    && c.queue.size == Total(c.queue.buckets) && c.queue.hpSize == |c.queue.buckets[HP_BUCKET]|
    && (r.ackClaims == 1 ==> !r.queueBit && forall t :: t in c.retry ==> id !in c.retry[t])
  }

  /** Over every interleaving of submit, peek, send, ack, cancel and reconnect threads: a request
      is claimed at most once and freed at most once; it is linked in the pool exactly while
      unclaimed and `poolNum` is the number of linked requests; the shared link is never on a
      worker bucket and a retry list at once, the queue bit says which, both queue counters are
      the bucket lengths, and a request claimed by its final ack is on neither list. */
  lemma ProtocolSafety(ss: seq<ClientStep>, id: Id)
    requires AllowedRun(EmptyClient(), ss) && id in Final(EmptyClient(), ss).reqs
    ensures |Final(EmptyClient(), ss).pool| == POOL_BUCKETS && |Final(EmptyClient(), ss).queue.buckets| == BUCKETS
    ensures Safe(Final(EmptyClient(), ss), id)
  {
    hide ClientInv, AllowedRun, Final, Safe;
    EmptyInv();
    SafeState(Final(EmptyClient(), ss), id);
  }

  /** While a high-priority request is queued the next peek takes one of those; else it takes one whose
      id leaves the round-robin index modulo 32, if there is one. */
  lemma HighFirst(c: Client, id: Id)
    requires ClientInv(c) && id in c.reqs && c.reqs[id].queueBit
    ensures |c.queue.buckets| == BUCKETS && c.queue.deq < BUCKETS
    ensures var p := Peeked(c);
            && (p.Some? ==> p.value in c.reqs && c.reqs[p.value].queueBit)
            && (c.reqs[id].high ==> p.Some? && c.reqs[p.value].high)
            && ((forall x :: x in c.reqs && c.reqs[x].queueBit ==> !c.reqs[x].high) ==>
                  && (p.Some? ==> p.value % 32 == c.queue.deq)
                  && (id % 32 == c.queue.deq ==> p.Some?))
  {
    hide Inv, Hashed, PoolOk, RetryLists, QueueHome;
    PeekedIsQueued(c);
    QueueMember(c, id);
    var p := Peeked(c);
    if c.queue.hpSize > 0 {
      QueueMember(c, c.queue.buckets[HP_BUCKET][0]);
    }
  }

  lemma SafeState(c: Client, id: Id)
    requires ClientInv(c) && id in c.reqs
    ensures |c.pool| == POOL_BUCKETS && |c.queue.buckets| == BUCKETS && Safe(c, id)
  {
    var r := c.reqs[id];
    hide Inv, Hashed, RetryLists, PoolHome, QueueHome, Total;
    assert Runs(r, [], r);
    ClaimedOnce(r, [], r);
    PoolMember(c, id);
    QueueMember(c, id);
    if r.onRetry.None? {
      RetryMember(c.reqs, c.retry, id);
    }
  }

  lemma HomeBucket(bs: seq<seq<Id>>, home: map<Id, nat>, id: Id, b: nat)
    requires Hashed(bs, home) && b < |bs|
    ensures id in bs[b] <==> id in home && home[id] == b
  {
  }

  lemma PoolMember(c: Client, id: Id)
    requires PoolOk(c) && id in c.reqs
    ensures id in c.pool[PoolBucket(id)] <==> c.reqs[id].inPool
    ensures c.poolNum == Total(c.pool)
  {
    HashedTotal(c.pool, PoolHome(c.reqs));
    HomeBucket(c.pool, PoolHome(c.reqs), id, PoolBucket(id));
  }

  lemma QueueMember(c: Client, id: Id)
    requires QueueLinked(c) && id in c.reqs
    ensures id in c.queue.buckets[BucketOf(id, c.reqs[id].high)] <==> c.reqs[id].queueBit
    ensures c.queue.size == Total(c.queue.buckets)
  {
    HashedTotal(c.queue.buckets, QueueHome(c.reqs));
    HomeBucket(c.queue.buckets, QueueHome(c.reqs), id, BucketOf(id, c.reqs[id].high));
  }

  lemma RetryMember(reqs: map<Id, Req>, retry: map<nat, seq<Id>>, id: Id)
    requires RetryLists(reqs, retry) && id in reqs && reqs[id].onRetry.None?
    ensures forall t :: t in retry ==> id !in retry[t]
  {
  }
}
