/** The datanode client manager as an object: the critical sections that search and change the
    request pool, the worker queue and the retry lists in place. Each is proved to be the step of
    the same name of the protocol model. */
module DnClientMgr {
  import opened Wrappers
  import opened Seqs
  import opened Buckets
  import opened WorkQueue
  import opened RequestFsm
  import opened Request
  import opened DnClient

  /** The step if the request can take it, else nothing. */
  function TryStep(c: Client, id: Id, e: Step): Client {
    if |c.pool| == POOL_BUCKETS && |c.queue.buckets| == BUCKETS && id in c.reqs && CanNow(c.reqs[id], e)
    then StepOn(c, id, e) else c
  }

  /** The guard of the steps taken here, as code can test it. */
  predicate CanNow(r: Req, e: Step)
    ensures CanNow(r, e) ==> Can(r, e)
  {
    (e.MemAck? || e.FinalAck? || e.CancelStep? || e.Collect?) && r.inPool
  }

  lemma TryInv(c: Client, id: Id, e: Step)
    requires ClientInv(c)
    ensures ClientInv(TryStep(c, id, e))
  {
    hide ClientInv;
    if id in c.reqs && CanNow(c.reqs[id], e) {
      PoolShape(c);
      OnInv(c, id, e);
    }
  }

  lemma PoolShape(c: Client)
    requires ClientInv(c)
    ensures |c.pool| == POOL_BUCKETS && |c.queue.buckets| == BUCKETS
    ensures c.queue.deq < BUCKETS && c.queue.hpSize >= 0
  {
  }

  // ---------------------------------------------------------------- collecting retries

  /** Offer the requests of one list, in order, to reconnect thread `t`. */
  function CollectList(c: Client, ids: seq<Id>, t: nat, addr: nat): Client
    decreases |ids|
  {
    if ids == [] then c else CollectList(TryStep(c, ids[0], Collect(t, addr)), ids[1..], t, addr)
  }

  /** Offer the buckets from `b` on. */
  function CollectFrom(c: Client, b: nat, t: nat, addr: nat): Client
    requires b <= |c.pool|
    decreases |c.pool| - b
  {
    if b == |c.pool| then c
    else
      CollectKeepsPool(c, c.pool[b], t, addr);
      CollectFrom(CollectList(c, c.pool[b], t, addr), b + 1, t, addr)
  }

  lemma CollectOne(c: Client, id: Id, t: nat, addr: nat)
    ensures TryStep(c, id, Collect(t, addr)).pool == c.pool
    ensures TryStep(c, id, Collect(t, addr)).reqs
         == if |c.pool| == POOL_BUCKETS && |c.queue.buckets| == BUCKETS && id in c.reqs && c.reqs[id].inPool
            then c.reqs[id := After(c.reqs[id], Collect(t, addr))] else c.reqs
    ensures id in c.reqs && c.reqs[id].inPool ==> After(c.reqs[id], Collect(t, addr)).inPool
  {
    hide Next;
  }

  lemma {:induction false} CollectKeepsPool(c: Client, ids: seq<Id>, t: nat, addr: nat)
    ensures CollectList(c, ids, t, addr).pool == c.pool
    decreases |ids|
  {
    if ids != [] {
      CollectOne(c, ids[0], t, addr);
      hide TryStep;
      CollectKeepsPool(TryStep(c, ids[0], Collect(t, addr)), ids[1..], t, addr);
    }
  }

  lemma {:induction false} CollectListInv(c: Client, ids: seq<Id>, t: nat, addr: nat)
    requires ClientInv(c)
    ensures ClientInv(CollectList(c, ids, t, addr))
    decreases |ids|
  {
    hide ClientInv, TryStep;
    if ids != [] {
      TryInv(c, ids[0], Collect(t, addr));
      CollectListInv(TryStep(c, ids[0], Collect(t, addr)), ids[1..], t, addr);
    }
  }

  /** A request of the reconnected datanode that waited for its answer is collected; no other
      request changes. */
  ghost predicate Offered(r: Req, t: nat, addr: nat, r': Req) {
    if r.addr == addr && r.st.WaitResp? then r'.st.RetryReq? && r'.onRetry == Some(t) && r'.ref == r.ref + 1
    else r' == r
  }

  lemma OfferedIs(r: Req, t: nat, addr: nat)
    requires r.inPool
    ensures Offered(r, t, addr, After(r, Collect(t, addr)))
  {
  }

  lemma {:induction false} CollectListEffect(c: Client, ids: seq<Id>, t: nat, addr: nat, id: Id)
    requires ClientInv(c) && NoDup(ids) && id in c.reqs && c.reqs[id].inPool
    ensures var r := CollectList(c, ids, t, addr);
            && id in r.reqs && r.reqs[id].inPool
            && if id in ids then Offered(c.reqs[id], t, addr, r.reqs[id]) else r.reqs[id] == c.reqs[id]
    decreases |ids|
  {
    hide ClientInv, TryStep, After, Offered;
    if ids != [] {
      PoolShape(c);
      CollectOne(c, ids[0], t, addr);
      TryInv(c, ids[0], Collect(t, addr));
      OfferedIs(c.reqs[id], t, addr);
      var c1 := TryStep(c, ids[0], Collect(t, addr));
      assert ids[0] !in ids[1..] && ids == [ids[0]] + ids[1..];
      CollectListEffect(c1, ids[1..], t, addr, id);
    }
  }

  /** A reconnect takes exactly the waiting requests of its datanode, each once. */
  lemma {:induction false} CollectTakesAll(c: Client, b: nat, t: nat, addr: nat, id: Id)
    requires ClientInv(c) && b <= |c.pool| && id in c.reqs && c.reqs[id].inPool
    ensures var r := CollectFrom(c, b, t, addr);
            && ClientInv(r) && id in r.reqs
            && if PoolBucket(id) >= b then Offered(c.reqs[id], t, addr, r.reqs[id]) else r.reqs[id] == c.reqs[id]
    decreases |c.pool| - b
  {
    hide ClientInv, CollectList, Offered;
    PoolShape(c);
    if b < |c.pool| {
      PoolBucketIs(c, b, id);
      CollectKeepsPool(c, c.pool[b], t, addr);
      CollectListInv(c, c.pool[b], t, addr);
      CollectListEffect(c, c.pool[b], t, addr, id);
      CollectTakesAll(CollectList(c, c.pool[b], t, addr), b + 1, t, addr, id);
    }
  }

  lemma PoolBucketIs(c: Client, b: nat, id: Id)
    requires ClientInv(c) && b < POOL_BUCKETS && id in c.reqs
    ensures |c.pool| == POOL_BUCKETS && NoDup(c.pool[b])
    ensures id in c.pool[b] <==> c.reqs[id].inPool && PoolBucket(id) == b
  {
    hide AllInv, QueueLinked, RetryLists;
    HomeBucket(c.pool, PoolHome(c.reqs), id, b);
  }

  lemma PoolOnly(c: Client, b: nat, id: Id)
    requires ClientInv(c) && b < |c.pool| && id in c.pool[b]
    ensures id in c.reqs && c.reqs[id].inPool
  {
    hide AllInv, QueueLinked, RetryLists;
    HomeBucket(c.pool, PoolHome(c.reqs), id, b);
  }

  /** A lookup in the hash bucket of an ID decides whether the request is in the pool. */
  lemma PoolSays(c: Client, id: Id)
    requires ClientInv(c)
    ensures PoolBucket(id) < |c.pool|
    ensures id in c.pool[PoolBucket(id)] <==> id in c.reqs && c.reqs[id].inPool
  {
    PoolShape(c);
    hide ClientInv;
    if id in c.reqs {
      PoolBucketIs(c, PoolBucket(id), id);
    } else if id in c.pool[PoolBucket(id)] {
      PoolOnly(c, PoolBucket(id), id);
    }
  }

  // ---------------------------------------------------------------- the object

  class Manager {
    var reqs: map<Id, Req>
    var pool: seq<seq<Id>>
    var poolNum: int
    var buckets: seq<seq<Id>>
    var deq: nat
    var size: int
    var hpSize: int
    var retry: map<nat, seq<Id>>

    ghost function View(): Client
      reads this
    {
      Client(reqs, pool, poolNum, Queue(buckets, deq, size, hpSize), retry)
    }

    constructor ()
      ensures View() == EmptyClient() && ClientInv(View())
    {
      reqs, pool, poolNum := map[], seq(POOL_BUCKETS, _ => []), 0;
      buckets, deq, size, hpSize := seq(BUCKETS, _ => []), 0, 0, 0;
      retry := map[];
      new;
      EmptyInv();
      assert View() == EmptyClient();
    }

    /** `DNUDReqPool_findReq_nolock`: walk the hash bucket of the id. */
    method FindReq(id: Id) returns (found: bool)
      requires ClientInv(View())
      ensures found <==> id in reqs && reqs[id].inPool
    {
      hide ClientInv, PoolBucket;
      found := false;
      PoolSays(View(), id);
      var bucket := pool[PoolBucket(id)];
      var i := 0;
      while i < |bucket|
        invariant 0 <= i <= |bucket|
        invariant id !in bucket[..i]
      {
        if bucket[i] == id { return true; }
        i := i + 1;
      }
    }

    /** The locked part of `find_DNUDReq_ReqPool` for a memory ack: found, with one more reference,
        exactly when the request is pooled and waits for its response. */
    method FindMemAck(id: Id) returns (found: bool)
      requires ClientInv(View())
      modifies this`reqs
      ensures ClientInv(View()) && View() == TryStep(old(View()), id, MemAck)
      ensures found <==> old(id in reqs && reqs[id].inPool && reqs[id].st.WaitResp?)
      ensures !found ==> reqs == old(reqs)
      ensures found ==> var r := old(reqs)[id];
                reqs == old(reqs)[id := r.(ref := r.ref + 1, ack := r.ack.(memory := r.ack.memory + 1))]
    {
      hide ClientInv;
      PoolShape(View());
      TryInv(View(), id, MemAck);
      var linked := FindReq(id);
      if !linked { return false; }
      MemAckIs(View(), id);
      hide TryStep;
      var r := reqs[id];
      var (st, action) := Next(r.st, FindReqOkMemAck);
      r := r.(st := st, ref := r.ref + 1);
      if !action.DoProcessResp? {
        reqs := reqs[id := r.(ref := r.ref - 1)];
        return false;
      }
      reqs := reqs[id := r.(ack := r.ack.(memory := r.ack.memory + 1))];
      found := true;
    }

    /** The locked part of `find_DNUDReq_ReqPool` for an ack that is not a memory ack. */
    method FindFinalAck(id: Id) returns (found: bool)
      requires ClientInv(View())
      modifies this
      ensures ClientInv(View()) && View() == TryStep(old(View()), id, FinalAck)
      ensures found <==> old(id in reqs && reqs[id].inPool && reqs[id].st.WaitResp? && reqs[id].poolBit)
    {
      hide ClientInv;
      PoolShape(View());
      TryInv(View(), id, FinalAck);
      var linked := FindReq(id);
      if !linked { return false; }
      FinalAckIs(View(), id);
      hide TryStep;
      var r := reqs[id];
      var (st, action) := Next(r.st, FindReqOk);
      r := r.(st := st, ref := r.ref + 1);
      if !action.DoProcessResp? {
        reqs := reqs[id := r.(ref := r.ref - 1)];
        return false;
      }
      if !r.poolBit {
        reqs := reqs[id := r.(ref := r.ref - 1)];
        return false;
      }
      pool := RemoveFrom(pool, PoolBucket(id), id);
      poolNum := poolNum - 1;
      var ack := r.ack.(finals := r.ack.finals + 1);
      reqs := reqs[id := r.(poolBit := false, inPool := false, ack := ack, ackClaims := r.ackClaims + 1)];
      found := true;
    }

    /** The locked part of `DNUDReq_cancel_Req`. */
    method CancelReq(id: Id, callerId: nat) returns (action: Action)
      requires ClientInv(View())
      modifies this
      ensures ClientInv(View()) && View() == TryStep(old(View()), id, CancelStep(callerId))
      ensures action.DoCancelReq? <==> old(id in reqs && reqs[id].inPool && reqs[id].caller == callerId
                                         && (reqs[id].st.WaitSend? || reqs[id].st.Sending? || reqs[id].st.WaitResp?))
    {
      hide ClientInv;
      action := NoAction;
      PoolShape(View());
      TryInv(View(), id, CancelStep(callerId));
      var linked := FindReq(id);
      if !linked { return; }
      CancelIs(View(), id, callerId);
      hide TryStep;
      var r := reqs[id];
      if r.caller != callerId { return; }
      var (st, a) := Next(r.st, Cancel);
      action := a;
      r := r.(st := st);
      if action.DoCancelReq? {
        r := r.(ref := r.ref + 1, inPool := false, cancel := r.cancel.(claimed := r.cancel.claimed + 1),
                cancelClaims := r.cancelClaims + 1);
        pool := RemoveFrom(pool, PoolBucket(id), id);
        poolNum := poolNum - 1;
      }
      reqs := reqs[id := r];
    }

    /** `_addReq_DNCWorkQ_nolock`. */
    method AddReq(b: nat, id: Id)
      requires b < |buckets|
      modifies this`buckets, this`deq, this`size, this`hpSize
      ensures View().queue == Add(old(View()).queue, b, id)
      ensures old(QueueOk(View().queue)) && b < BUCKETS && id !in old(buckets)[b] ==>
                && QueueOk(View().queue) && buckets[b] == old(buckets)[b] + [id]
                && deq == if Total(old(buckets)) == 0 then b else old(deq)
    {
      ghost var q := View().queue;
      if QueueOk(q) && b < BUCKETS && id !in buckets[b] { AddOk(q, b, id); }
      buckets := buckets[b := buckets[b] + [id]];
      size := size + 1;
      if size == 1 {
        deq := b;
      }
      if b == HP_BUCKET {
        hpSize := hpSize + 1;
      }
    }

    /** `_rmReq_DNCWorkQ_nolock`. */
    method RmReq(b: nat, id: Id)
      requires b < |buckets|
      modifies this`buckets, this`size, this`hpSize
      ensures View().queue == Remove(old(View()).queue, b, id)
      ensures old(QueueOk(View().queue)) && b < BUCKETS && id in old(buckets)[b] ==>
                QueueOk(View().queue) && id !in buckets[b] && Total(buckets) == Total(old(buckets)) - 1
    {
      ghost var q := View().queue;
      if QueueOk(q) && b < BUCKETS && id in buckets[b] { RemoveOk(q, b, id); }
      buckets := buckets[b := Without(buckets[b], id)];
      size := size - 1;
      if b == HP_BUCKET {
        hpSize := hpSize - 1;
      }
    }

    /** `_DNCWker_peek_Req_workQ`: the high-priority bucket while it has an entry, else the bucket whose
        turn it is; its head leaves the queue and is handed to the sender if its state allows. */
    method PeekReq() returns (r: Option<Id>)
      requires ClientInv(View())
      modifies this
      ensures ClientInv(View()) && View() == Do(old(View()), Peek)
      ensures Turns(old(View()), View(), r)
      ensures r.Some? ==> r.value in reqs && reqs[r.value].st.Sending? && reqs[r.value].send.peeked > 0
    {
      hide ClientInv;
      PeekInv(View());
      PoolShape(View());
      PeekIs(View());
      PeekedOk(View());
      PeekTurns(View());
      hide Do, Next;
      var b;
      if hpSize > 0 {
        b := HP_BUCKET;
      } else {
        b := deq;
        deq := (deq + 1) % HASH_NUM;
      }
      if buckets[b] == [] { return None; }
      var id := buckets[b][0];
      var req := reqs[id];
      if req.queueBit {
        RmReq(b, id);
        req := req.(queueBit := false);
      }
      var (st, action) := Next(req.st, PeekWorkQ);
      if action.DoSend? {
        req := req.(ref := req.ref + 1, send := req.send.(peeked := req.send.peeked + 1));
        r := Some(id);
      } else {
        r := None;
      }
      reqs := reqs[id := req.(st := st)];
    }

    /** `DNUDReqPool_get_retryReq`: all buckets, each in list order. */
    method CollectRetries(t: nat, addr: nat)
      requires ClientInv(View())
      modifies this
      ensures ClientInv(View()) && View() == CollectFrom(old(View()), 0, t, addr)
    {
      hide ClientInv, TryStep;
      ghost var c0 := View();
      PoolShape(c0);
      var b := 0;
      while b < POOL_BUCKETS
        invariant b <= POOL_BUCKETS == |pool| && ClientInv(View())
        invariant CollectFrom(c0, 0, t, addr) == CollectFrom(View(), b, t, addr)
        decreases POOL_BUCKETS - b
      {
        CollectKeepsPool(View(), pool[b], t, addr);
        CollectBucket(pool[b], t, addr);
        b := b + 1;
      }
    }

    method CollectBucket(ids: seq<Id>, t: nat, addr: nat)
      requires ClientInv(View())
      modifies this
      ensures ClientInv(View()) && View() == CollectList(old(View()), ids, t, addr)
    {
      hide ClientInv, TryStep;
      ghost var c1 := View();
      var i := 0;
      assert ids[0..] == ids;
      while i < |ids|
        invariant 0 <= i <= |ids| && ClientInv(View())
        invariant CollectList(c1, ids, t, addr) == CollectList(View(), ids[i..], t, addr)
      {
        assert ids[i..][0] == ids[i] && ids[i..][1..] == ids[i + 1..];
        OfferReq(ids[i], t, addr);
        i := i + 1;
      }
    }

    method OfferReq(id: Id, t: nat, addr: nat)
      requires ClientInv(View())
      modifies this
      ensures ClientInv(View()) && View() == TryStep(old(View()), id, Collect(t, addr))
    {
      hide ClientInv;
      PoolShape(View());
      TryInv(View(), id, Collect(t, addr));
      if id !in reqs || !reqs[id].inPool { return; }
      NotYetOnRetry(View(), id);
      CollectIs(View(), id, t, addr);
      hide TryStep;
      var r := reqs[id];
      if addr != r.addr { return; }
      var (st, action) := Next(r.st, ConnBack);
      if action.DoRetryReq? {
        r := r.(ref := r.ref + 1, onRetry := Some(t));
        retry := retry[t := (if t in retry then retry[t] else []) + [id]];
      }
      reqs := reqs[id := r.(st := st)];
    }
  }

  /** The steps spelled out on the whole client. */
  lemma MemAckIs(c: Client, id: Id)
    requires |c.pool| == POOL_BUCKETS && |c.queue.buckets| == BUCKETS && id in c.reqs && c.reqs[id].inPool
    ensures var r, c' := c.reqs[id], TryStep(c, id, MemAck);
            if !r.st.WaitResp? then c' == c && c.reqs == c.reqs[id := r]
            else c' == c.(reqs := c.reqs[id := r.(ref := r.ref + 1, ack := r.ack.(memory := r.ack.memory + 1))])
  {
    assert c.reqs[id := c.reqs[id]] == c.reqs;
  }

  lemma FinalAckIs(c: Client, id: Id)
    requires |c.pool| == POOL_BUCKETS && |c.queue.buckets| == BUCKETS && id in c.reqs && c.reqs[id].inPool
    ensures var r, c' := c.reqs[id], TryStep(c, id, FinalAck);
            if !r.st.WaitResp? then c' == c.(reqs := c.reqs[id := r])
            else if !r.poolBit then c' == c.(reqs := c.reqs[id := r.(st := ProcessResp)])
            else c' == c.(reqs := c.reqs[id := r.(st := ProcessResp, ref := r.ref + 1, poolBit := false,
                                                  inPool := false, ack := r.ack.(finals := r.ack.finals + 1),
                                                  ackClaims := r.ackClaims + 1)],
                          pool := RemoveFrom(c.pool, PoolBucket(id), id), poolNum := c.poolNum - 1)
  {
  }

  lemma CancelIs(c: Client, id: Id, callerId: nat)
    requires |c.pool| == POOL_BUCKETS && |c.queue.buckets| == BUCKETS && id in c.reqs && c.reqs[id].inPool
    ensures var r, c', st := c.reqs[id], TryStep(c, id, CancelStep(callerId)), Next(c.reqs[id].st, Cancel);
            if callerId != r.caller then c' == c
            else if !st.1.DoCancelReq? then c' == c.(reqs := c.reqs[id := r.(st := st.0)])
            else c' == c.(reqs := c.reqs[id := r.(st := st.0, ref := r.ref + 1, inPool := false,
                                                  cancel := r.cancel.(claimed := r.cancel.claimed + 1),
                                                  cancelClaims := r.cancelClaims + 1)],
                          pool := RemoveFrom(c.pool, PoolBucket(id), id), poolNum := c.poolNum - 1)
  {
    hide Next;
    assert c.reqs[id := c.reqs[id]] == c.reqs;
  }

  lemma CollectIs(c: Client, id: Id, t: nat, addr: nat)
    requires |c.pool| == POOL_BUCKETS && |c.queue.buckets| == BUCKETS && id in c.reqs && c.reqs[id].inPool
    requires c.reqs[id].st.WaitResp? ==> c.reqs[id].onRetry.None?
    ensures var r, c', st := c.reqs[id], TryStep(c, id, Collect(t, addr)), Next(c.reqs[id].st, ConnBack);
            if addr != r.addr then c' == c
            else if !st.1.DoRetryReq? then c' == c.(reqs := c.reqs[id := r.(st := st.0)])
            else c' == c.(reqs := c.reqs[id := r.(st := st.0, ref := r.ref + 1, onRetry := Some(t))],
                          retry := c.retry[t := (if t in c.retry then c.retry[t] else []) + [id]])
  {
    assert c.reqs[id := c.reqs[id]] == c.reqs;
  }

  /** A peek looks at the high-priority bucket while it has an entry and leaves the index alone, else
      at the bucket of the index, which it advances by one modulo 32. The head of that bucket, if
      there is one, leaves the queue; it is handed out exactly if it waits to be sent. */
  ghost predicate Turns(c: Client, c': Client, r: Option<Id>) {
    |c.queue.buckets| == BUCKETS && c.queue.deq < BUCKETS &&
    var high := c.queue.buckets[HP_BUCKET] != [];
    var b := if high then HP_BUCKET else c.queue.deq;
    && c'.queue.deq == (if high then c.queue.deq else (c.queue.deq + 1) % 32)
    && (c.queue.buckets[b] == [] ==> r.None? && c'.queue.buckets == c.queue.buckets && c'.reqs == c.reqs)
    && (c.queue.buckets[b] != [] ==>
          var id := c.queue.buckets[b][0];
          && c'.queue.buckets == c.queue.buckets[b := c.queue.buckets[b][1..]]
          && id in c.reqs && id in c'.reqs && !c'.reqs[id].queueBit
          && r == (if c.reqs[id].st.WaitSend? then Some(id) else None)
          && c'.reqs[id].st == (if c.reqs[id].st.WaitSend? then Sending else c.reqs[id].st)
          && (forall x :: x in c.reqs && x != id ==> x in c'.reqs && c'.reqs[x] == c.reqs[x]))
  }

  /** What the sender gets from a peek. */
  function HandedOut(c: Client): Option<Id>
    requires |c.queue.buckets| == BUCKETS && c.queue.deq < BUCKETS
  {
    var p := Peeked(c);
    if p.Some? && p.value in c.reqs && Next(c.reqs[p.value].st, PeekWorkQ).1.DoSend? then p else None
  }

  lemma PeekTurns(c: Client)
    requires ClientInv(c)
    ensures |c.queue.buckets| == BUCKETS && c.queue.deq < BUCKETS && Turns(c, Do(c, Peek), HandedOut(c))
  {
    hide ClientInv, Do, Without;
    PoolShape(c);
    HighCount(c);
    PeekIs(c);
    PeekedOk(c);
    var b := PeekBucket(c.queue);
    if c.queue.buckets[b] != [] {
      HeadLeaves(c.queue.buckets[b]);
    }
  }

  lemma HeadLeaves(s: seq<Id>)
    requires s != []
    ensures Without(s, s[0]) == s[1..]
  {
  }

  lemma HighCount(c: Client)
    requires ClientInv(c)
    ensures |c.queue.buckets| == BUCKETS && c.queue.hpSize == |c.queue.buckets[HP_BUCKET]|
  {
  }

  /** What a peek does, without its precondition. */
  function PeekEffect(c: Client): Client
    requires |c.queue.buckets| == BUCKETS && c.queue.deq < BUCKETS
  {
    var b, q1 := PeekBucket(c.queue), c.queue.(deq := NextDeq(c.queue));
    if c.queue.buckets[b] == [] then c.(queue := q1)
    else
      var id := c.queue.buckets[b][0];
      if id !in c.reqs then c
      else
        var r, st := c.reqs[id], Next(c.reqs[id].st, PeekWorkQ);
        c.(queue := Remove(q1, b, id),
           reqs := c.reqs[id := if st.1.DoSend?
                                then r.(st := st.0, queueBit := false, ref := r.ref + 1,
                                        send := r.send.(peeked := r.send.peeked + 1))
                                else r.(st := st.0, queueBit := false)])
  }

  lemma PeekedOk(c: Client)
    requires ClientInv(c)
    ensures |c.queue.buckets| == BUCKETS && c.queue.deq < BUCKETS
    ensures Peeked(c).Some? ==> Peeked(c).value in c.reqs && c.reqs[Peeked(c).value].queueBit
  {
    PeekedIsQueued(c);
  }

  lemma PeekIs(c: Client)
    requires ClientInv(c) && |c.queue.buckets| == BUCKETS && c.queue.deq < BUCKETS
    ensures Do(c, Peek) == PeekEffect(c)
  {
    hide ClientInv, Next;
    PeekedOk(c);
  }

  lemma NotYetOnRetry(c: Client, id: Id)
    requires ClientInv(c) && id in c.reqs
    ensures c.reqs[id].st.WaitResp? ==> c.reqs[id].onRetry.None?
  {
    hide PoolOk, QueueLinked, RetryLists;
    WaitingIsOffList(c.reqs[id]);
  }

  lemma WaitingIsOffList(r: Req)
    requires Inv(r)
    ensures r.st.WaitResp? ==> r.onRetry.None?
  {
  }
}
