/** Finite sequences used as the kernel's doubly linked lists: membership without
    repetition, removal of one entry (`list_del`) and the facts the models need. */
module Seqs {

  /** No entry is linked twice. */
  ghost predicate NoDup<T>(s: seq<T>) {
    forall i, j :: 0 <= i < j < |s| ==> s[i] != s[j]
  }

  /** `list_del`: the list without (the first link of) `x`; unchanged when `x` is not linked. */
  function Without<T(==)>(s: seq<T>, x: T): (r: seq<T>) {
    if s == [] then []
    else if s[0] == x then s[1..]
    else [s[0]] + Without(s[1..], x)
  }

  lemma {:induction false} WithoutMember<T>(s: seq<T>, x: T)
    requires NoDup(s)
    ensures NoDup(Without(s, x))
    ensures forall y :: y in Without(s, x) <==> y in s && y != x
    ensures |Without(s, x)| == if x in s then |s| - 1 else |s|
  {
    if s != [] {
      if s[0] == x {
        forall y ensures y in s[1..] <==> y in s && y != x {
          if y in s && y != x {
            var i :| 0 <= i < |s| && s[i] == y;
            assert s[1..][i - 1] == y;
          }
        }
      } else {
        assert NoDup(s[1..]);
        WithoutMember(s[1..], x);
        var w := Without(s[1..], x);
        assert s[0] !in s[1..];
        assert forall y :: y in s <==> y == s[0] || y in s[1..];
        assert forall y :: y in [s[0]] + w <==> y == s[0] || y in w;
      }
    }
  }

  lemma {:induction false} WithoutLast<T>(s: seq<T>)
    requires NoDup(s) && s != []
    ensures Without(s, s[|s| - 1]) == s[..|s| - 1]
  {
    if |s| > 1 {
      var t := s[1..];
      assert NoDup(t);
      WithoutLast(t);
      assert s[..|s| - 1] == [s[0]] + t[..|t| - 1];
    }
  }

  /** Removing an entry that is not linked changes nothing, whatever the list. */
  lemma {:induction false} WithoutAbsent<T>(s: seq<T>, x: T)
    requires x !in s
    ensures Without(s, x) == s
  {
    if s != [] {
      WithoutAbsent(s[1..], x);
      assert s == [s[0]] + s[1..];
    }
  }

  /** Only `x` can disappear, and the order of the others is kept: whatever held of
      every entry still does. */
  lemma {:induction false} WithoutSubset<T>(s: seq<T>, x: T)
    ensures forall y :: y in Without(s, x) ==> y in s
    ensures forall y :: y in s && y != x ==> y in Without(s, x)
  {
    if s != [] && s[0] != x {
      WithoutSubset(s[1..], x);
      assert forall y :: y in s <==> y == s[0] || y in s[1..];
    } else if s != [] {
      assert s == [s[0]] + s[1..];
    }
  }

  lemma {:induction false} WithoutConcat<T>(a: seq<T>, b: seq<T>, x: T)
    ensures Without(a + b, x) == if x in a then Without(a, x) + b else a + Without(b, x)
  {
    if a == [] {
      assert a + b == b;
      assert a + Without(b, x) == Without(b, x);
    } else {
      assert (a + b)[1..] == a[1..] + b;
      if a[0] != x {
        WithoutConcat(a[1..], b, x);
        assert a == [a[0]] + a[1..];
      }
    }
  }

  /** The first index of a linked entry. */
  lemma Cover<T>(s: seq<T>, x: T) returns (i: nat)
    requires x in s
    ensures i < |s| && s[i] == x
  {
    i :| 0 <= i < |s| && s[i] == x;
  }

  /** A list without repetition has as many entries as the set of its entries. */
  lemma {:induction false} NoDupCard<T>(s: seq<T>, m: set<T>)
    requires NoDup(s)
    requires forall x :: x in s <==> x in m
    ensures |m| == |s|
  {
    if s == [] {
      assert m == {};
    } else {
      var t := s[1..];
      assert s[0] !in t;
      assert NoDup(t);
      assert s == [s[0]] + t;
      forall x ensures x in t <==> x in m - {s[0]} {
        assert x in s <==> x == s[0] || x in t;
      }
      NoDupCard(t, m - {s[0]});
      assert m == (m - {s[0]}) + {s[0]};
    }
  }
}
