/** The sender's worker queue: 32 buckets by request id, one high-priority bucket, and a
    round-robin index. */
module WorkQueue {
  import opened Wrappers
  import opened Seqs
  import opened Buckets

  const HASH_NUM: nat := 32
  const HP_BUCKET: nat := 32
  const BUCKETS: nat := 33

  datatype Queue = Queue(buckets: seq<seq<Id>>, deq: nat, size: int, hpSize: int)

  function EmptyQueue(): Queue { Queue(seq(BUCKETS, _ => []), 0, 0, 0) }

  function BucketOf(id: Id, high: bool): nat { if high then HP_BUCKET else id % HASH_NUM }

  ghost predicate Shaped(q: Queue) {
    && |q.buckets| == BUCKETS
    && q.deq <= HP_BUCKET
    && q.hpSize == |q.buckets[HP_BUCKET]|
  }

  /** `_addReq_DNCWorkQ_nolock`: the first entry of an empty queue redirects the round robin. */
  function Add(q: Queue, b: nat, id: Id): Queue
    requires b < |q.buckets|
  {
    Queue(AddTo(q.buckets, b, id), if q.size + 1 == 1 then b else q.deq, q.size + 1,
          if b == HP_BUCKET then q.hpSize + 1 else q.hpSize)
  }

  /** `_rmReq_DNCWorkQ_nolock`. */
  function Remove(q: Queue, b: nat, id: Id): Queue
    requires b < |q.buckets|
  {
    Queue(RemoveFrom(q.buckets, b, id), q.deq, q.size - 1, if b == HP_BUCKET then q.hpSize - 1 else q.hpSize)
  }

  /** The bucket the next peek looks at, and the round-robin index after it. */
  function PeekBucket(q: Queue): nat { if q.hpSize > 0 then HP_BUCKET else q.deq }

  function NextDeq(q: Queue): nat { if q.hpSize > 0 then q.deq else (q.deq + 1) % HASH_NUM }

  /** A peek takes the head of that bucket off the queue, if there is one. */
  function Peek(q: Queue): Queue
    requires |q.buckets| == BUCKETS && q.deq < BUCKETS
  {
    var b, q1 := PeekBucket(q), q.(deq := NextDeq(q));
    if q.buckets[b] == [] then q1 else Remove(q1, b, q.buckets[b][0])
  }

  /** No list repeats an entry, and both counters are exact. */
  ghost predicate QueueOk(q: Queue) {
    && Shaped(q)
    && (forall b :: 0 <= b < BUCKETS ==> NoDup(q.buckets[b]))
    && q.size == Total(q.buckets)
  }

  /** Adding an unlinked request keeps the lists free of repetition and the counters exact; the round
      robin turns to it exactly when the queue was empty. */
  lemma AddOk(q: Queue, b: nat, id: Id)
    requires QueueOk(q) && b < BUCKETS && id !in q.buckets[b]
    ensures var r := Add(q, b, id);
            && QueueOk(r) && r.buckets[b] == q.buckets[b] + [id]
            && (Total(q.buckets) == 0 ==> r.deq == b) && (Total(q.buckets) > 0 ==> r.deq == q.deq)
  {
    TotalUpdate(q.buckets, b, q.buckets[b] + [id]);
  }

  /** Removing a linked request keeps them too, and leaves the others in order. */
  lemma RemoveOk(q: Queue, b: nat, id: Id)
    requires QueueOk(q) && b < BUCKETS && id in q.buckets[b]
    ensures var r := Remove(q, b, id);
            && QueueOk(r) && id !in r.buckets[b] && r.deq == q.deq && Total(r.buckets) == Total(q.buckets) - 1
            && (forall x :: x in q.buckets[b] && x != id ==> x in r.buckets[b])
  {
    WithoutMember(q.buckets[b], id);
    TotalUpdate(q.buckets, b, Without(q.buckets[b], id));
  }
}
