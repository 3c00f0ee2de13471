/** Facts about sequences without repetitions, used by the draw and sampling proofs. */
module Collections {

  /** No value occurs twice. */
  predicate Distinct<T(==)>(s: seq<T>)
  {
    forall i, j :: 0 <= i < j < |s| ==> s[i] != s[j]
  }

  /** The elements of a sequence, as a set. */
  function Elements<T>(s: seq<T>): set<T>
  {
    set x | x in s
  }

  /** A sequence without repetitions has as many elements as its length. */
  lemma {:induction false} DistinctSize<T>(s: seq<T>)
    requires Distinct(s)
    ensures |Elements(s)| == |s|
  {
    if s != [] {
      assert Distinct(s[1..]);
      DistinctSize(s[1..]);
      assert Elements(s) == {s[0]} + Elements(s[1..]);
    }
  }

  /** In a sequence without repetitions every element occurs exactly once. */
  lemma {:induction false} DistinctOccurrences<T>(s: seq<T>, x: T)
    requires Distinct(s)
    ensures multiset(s)[x] == if x in s then 1 else 0
  {
    if s != [] {
      assert s == [s[0]] + s[1..];
      assert Distinct(s[1..]);
      DistinctOccurrences(s[1..], x);
    }
  }

  /** Two sequences without repetitions and with the same elements are permutations of each other. */
  lemma SameElementsSameMultiset<T>(a: seq<T>, b: seq<T>)
    requires Distinct(a) && Distinct(b)
    requires forall x :: x in a <==> x in b
    ensures multiset(a) == multiset(b)
  {
    forall x
      ensures multiset(a)[x] == multiset(b)[x]
    {
      DistinctOccurrences(a, x);
      DistinctOccurrences(b, x);
    }
  }

  /** A sequence without repetitions whose elements all occur in `b` is a sub-multiset of `b`. */
  lemma DistinctSubMultiset<T>(a: seq<T>, b: seq<T>)
    requires Distinct(a)
    requires forall x :: x in a ==> x in b
    ensures multiset(a) <= multiset(b)
  {
    forall x
      ensures multiset(a)[x] <= multiset(b)[x]
    {
      DistinctOccurrences(a, x);
    }
  }

  /** The indices below n, in order. */
  function Indices(n: nat): seq<nat>
  {
    seq(n, k requires 0 <= k < n => k)
  }

  /** A subset as large as its superset is the whole superset. */
  lemma SubsetOfSameSize<T>(a: set<T>, b: set<T>)
    requires a <= b && |a| == |b|
    ensures a == b
  {
    assert b == a + (b - a);
    assert a * (b - a) == {};
    assert b - a == {};
  }

  /**
   * A permutation of the indices below n: n distinct values, each below n.
   * Such a sequence takes every index below n.
   */
  predicate IsPermutation(perm: seq<nat>, n: nat)
  {
    && |perm| == n
    && (forall k :: 0 <= k < n ==> perm[k] < n)
    && Distinct(perm)
  }

  lemma PermutationIsOnto(perm: seq<nat>, n: nat, k: nat)
    requires IsPermutation(perm, n) && k < n
    ensures k in perm
  {
    var all := Indices(n);
    assert Distinct(all);
    DistinctSize(perm);
    DistinctSize(all);
    assert Elements(perm) <= Elements(all) by {
      forall v | v in Elements(perm) ensures v in Elements(all) {
        assert all[v] == v;
      }
    }
    SubsetOfSameSize(Elements(perm), Elements(all));
    assert all[k] == k;
    assert k in Elements(perm);
  }
}
