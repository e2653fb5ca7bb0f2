/** `slice::sort_unstable`, which the solvers call to order counts, hands
    and bricks: an in-place sort under a total preorder. Which of several
    equivalent elements comes first is left open, as the library leaves it. */
module Sorting {

  /** `le` is total and transitive, as `Ord::cmp` is. */
  ghost predicate TotalPreorder<T(!new)>(le: (T, T) -> bool) {
    (forall x, y :: le(x, y) || le(y, x)) &&
    (forall x, y, z :: le(x, y) && le(y, z) ==> le(x, z))
  }

  predicate Sorted<T>(s: seq<T>, le: (T, T) -> bool) {
    forall k, l :: 0 <= k < l < |s| ==> le(s[k], s[l])
  }

  /** Exchanges two cells; nothing else changes. */
  method Swap<T>(a: array<T>, i: nat, j: nat)
    requires i < a.Length && j < a.Length
    modifies a
    ensures a[..] == old(a[..])[i := old(a[j])][j := old(a[i])]
    ensures multiset(a[..]) == multiset(old(a[..]))
  {
    a[i], a[j] := a[j], a[i];
  }

  /** Sorts `a` in place: the result is ordered by `le` and holds the same
      elements as before. */
  method SortUnstable<T(!new)>(a: array<T>, le: (T, T) -> bool)
    requires TotalPreorder(le)
    modifies a
    ensures Sorted(a[..], le)
    ensures multiset(a[..]) == multiset(old(a[..]))
  {
    for i := 0 to a.Length
      invariant Sorted(a[..i], le)
      invariant multiset(a[..]) == multiset(old(a[..]))
    {
      Insert(a, i, le);
    }
    assert a[..] == a[..a.Length];
  }

  /** Moves `a[i]` down to its place among the sorted `a[..i]`. */
  method Insert<T(!new)>(a: array<T>, i: nat, le: (T, T) -> bool)
    requires TotalPreorder(le)
    requires i < a.Length && Sorted(a[..i], le)
    modifies a
    ensures Sorted(a[..i + 1], le)
    ensures a[i + 1..] == old(a[i + 1..])
    ensures multiset(a[..]) == multiset(old(a[..]))
  {
    var j := i;
    while j > 0 && !le(a[j - 1], a[j])
      invariant 0 <= j <= i
      invariant forall k, l :: 0 <= k < l <= i && k != j && l != j ==> le(a[k], a[l])
      invariant forall l :: j < l <= i ==> le(a[j], a[l])
      invariant a[i + 1..] == old(a[i + 1..])
      invariant multiset(a[..]) == multiset(old(a[..]))
    {
      Swap(a, j - 1, j);
      j := j - 1;
    }
  }

  /** Exchanging two elements keeps the multiset. */
  lemma SwapMultiset<T>(s: seq<T>, i: nat, j: nat)
    requires i < j < |s|
    ensures multiset(s[i := s[j]][j := s[i]]) == multiset(s)
  {
    var t := s[i := s[j]];
    assert multiset(t) == multiset(s) - multiset{s[i]} + multiset{s[j]};
    assert t[j] == s[j];
    assert multiset(t[j := s[i]]) == multiset(t) - multiset{s[j]} + multiset{s[i]};
  }

  /** A sequence whose neighbours are in order is sorted. */
  lemma {:induction false} SortedChain<T(!new)>(s: seq<T>, le: (T, T) -> bool)
    requires TotalPreorder(le)
    requires forall k :: 0 <= k < |s| - 1 ==> le(s[k], s[k + 1])
    ensures Sorted(s, le)
    decreases |s|
  {
    if |s| > 1 {
      var p := s[..|s| - 1];
      assert forall k :: 0 <= k < |p| ==> p[k] == s[k];
      SortedChain(p, le);
      forall k | 0 <= k < |s| - 1
        ensures le(s[k], s[|s| - 1])
      {
        if k < |s| - 2 {
          assert le(p[k], p[|p| - 1]);
        }
      }
    }
  }

  /** When `le` only ties equal elements, there is one sorted arrangement of
      a multiset: two sorted sequences with the same elements are equal. */
  lemma {:induction false} SortedUnique<T(!new)>(a: seq<T>, b: seq<T>, le: (T, T) -> bool)
    requires TotalPreorder(le)
    requires Sorted(a, le) && Sorted(b, le) && multiset(a) == multiset(b)
    requires forall x, y :: x in a && y in a && le(x, y) && le(y, x) ==> x == y
    ensures a == b
    decreases |a|
  {
    if a != [] {
      SortedHeads(a, b, le);
      assert a == [a[0]] + a[1..] && b == [b[0]] + b[1..];
      assert multiset(a[1..]) == multiset(a) - multiset{a[0]};
      assert multiset(b[1..]) == multiset(b) - multiset{a[0]};
      assert forall x :: x in a[1..] ==> x in a;
      SortedTail(a, le);
      SortedTail(b, le);
      SortedUnique(a[1..], b[1..], le);
    } else {
      assert |multiset(b)| == 0;
    }
  }

  /** The first elements of two sorted arrangements tie. */
  lemma SortedHeads<T(!new)>(a: seq<T>, b: seq<T>, le: (T, T) -> bool)
    requires TotalPreorder(le)
    requires a != [] && Sorted(a, le) && Sorted(b, le) && multiset(a) == multiset(b)
    requires forall x, y :: x in a && y in a && le(x, y) && le(y, x) ==> x == y
    ensures b != [] && a[0] == b[0]
  {
    assert a[0] in multiset(b);
    assert b[0] in multiset(a);
    var j :| 0 <= j < |b| && b[j] == a[0];
    var i :| 0 <= i < |a| && a[i] == b[0];
    Reflexive(le, a[0]);
    assert le(b[0], a[0]) by {
      if j > 0 {
        assert le(b[0], b[j]);
      }
    }
    assert le(a[0], b[0]) by {
      if i > 0 {
        assert le(a[0], a[i]);
      }
    }
    assert a[0] in a && b[0] in a;
  }

  lemma SortedTail<T>(s: seq<T>, le: (T, T) -> bool)
    requires s != [] && Sorted(s, le)
    ensures Sorted(s[1..], le)
  {
    forall k, l | 0 <= k < l < |s| - 1
      ensures le(s[1..][k], s[1..][l])
    {
      assert s[1..][k] == s[k + 1] && s[1..][l] == s[l + 1];
    }
  }

  lemma Reflexive<T(!new)>(le: (T, T) -> bool, x: T)
    requires TotalPreorder(le)
    ensures le(x, x)
  {
    assert le(x, x) || le(x, x);
  }
}
