/** Arrays of lists: the hash buckets of the request pool and of the worker queue. */
module Buckets {
  import opened Seqs

  type Id = nat

  /** Every entry is linked once, in its home bucket, and nothing else is linked. */
  ghost predicate Hashed(bs: seq<seq<Id>>, home: map<Id, nat>) {
    && (forall b :: 0 <= b < |bs| ==> NoDup(bs[b]))
    && (forall b, id :: 0 <= b < |bs| ==> (id in bs[b] <==> id in home && home[id] == b))
    && (forall id :: id in home ==> home[id] < |bs|)
  }

  /** `list_add_tail` and `list_del` on one bucket. */
  function AddTo(bs: seq<seq<Id>>, b: nat, id: Id): seq<seq<Id>>
    requires b < |bs|
  {
    bs[b := bs[b] + [id]]
  }

  function RemoveFrom(bs: seq<seq<Id>>, b: nat, id: Id): seq<seq<Id>>
    requires b < |bs|
  {
    bs[b := Without(bs[b], id)]
  }

  lemma AddHashed(bs: seq<seq<Id>>, home: map<Id, nat>, b: nat, id: Id)
    requires Hashed(bs, home) && b < |bs| && id !in home
    ensures Hashed(AddTo(bs, b, id), home[id := b])
    ensures |home[id := b]| == |home| + 1
  {
    var r := AddTo(bs, b, id);
    assert id !in bs[b];
    assert forall x :: x in r[b] <==> x in bs[b] || x == id;
    assert home[id := b].Keys == home.Keys + {id};
  }

  lemma RemoveHashed(bs: seq<seq<Id>>, home: map<Id, nat>, id: Id)
    requires Hashed(bs, home) && id in home
    ensures Hashed(RemoveFrom(bs, home[id], id), home - {id})
    ensures |home - {id}| == |home| - 1
  {
    WithoutMember(bs[home[id]], id);
    assert (home - {id}).Keys == home.Keys - {id};
  }

  ghost function Total(bs: seq<seq<Id>>): nat {
    if bs == [] then 0 else |bs[|bs| - 1]| + Total(bs[..|bs| - 1])
  }

  lemma {:induction false} TotalUpdate(bs: seq<seq<Id>>, b: nat, s: seq<Id>)
    requires b < |bs|
    ensures Total(bs[b := s]) == Total(bs) - |bs[b]| + |s|
    ensures |bs[b]| <= Total(bs)
  {
    var n := |bs| - 1;
    if b == n {
      assert bs[b := s][..n] == bs[..n];
    } else {
      assert bs[b := s][..n] == bs[..n][b := s];
      TotalUpdate(bs[..n], b, s);
    }
  }

  ghost function Below(home: map<Id, nat>, n: nat): map<Id, nat> {
    map id | id in home && home[id] < n :: home[id]
  }

  lemma HashedPrefix(bs: seq<seq<Id>>, home: map<Id, nat>, n: nat)
    requires Hashed(bs, home) && n <= |bs|
    ensures Hashed(bs[..n], Below(home, n))
  {
  }

  lemma LastBucket(bs: seq<seq<Id>>, home: map<Id, nat>, last: set<Id>)
    requires Hashed(bs, home) && bs != [] && last == set id | id in home && home[id] == |bs| - 1
    ensures |last| == |bs[|bs| - 1]|
    ensures forall id :: id in home ==> home[id] < |bs|
  {
    NoDupCard(bs[|bs| - 1], last);
  }

  /** The bucket lengths add up to the number of entries. */
  lemma {:induction false} HashedTotal(bs: seq<seq<Id>>, home: map<Id, nat>)
    requires Hashed(bs, home)
    ensures Total(bs) == |home|
  {
    if bs == [] {
      assert home.Keys == {};
    } else {
      hide Hashed;
      var n := |bs| - 1;
      var rest := Below(home, n);
      var last := set id | id in home && home[id] == n;
      HashedPrefix(bs, home, n);
      LastBucket(bs, home, last);
      assert home.Keys == rest.Keys + last && rest.Keys !! last;
      HashedTotal(bs[..n], rest);
    }
  }
}
