/**
 * Drawing without replacement over a frozen pool, as both picker games do:
 * the candidates are the pool members whose id has not been taken yet.
 */
module Draw {
  import opened Collections
  import opened Roster

  const AllPickedMessage: string := "All team members have been picked!"

  /** The members of `pool` whose id does not occur in `taken`, in pool order. */
  function Available(pool: seq<Member>, taken: seq<string>): (r: seq<Member>)
    ensures forall m :: m in r <==> m in pool && m.id !in taken
    ensures |r| <= |pool|
  {
    if pool == [] then []
    else (if pool[0].id in taken then [] else [pool[0]]) + Available(pool[1..], taken)
  }

  /**
   * What every reachable session satisfies: the taken ids are pairwise
   * distinct and each of them is the id of a pool member.
   */
  ghost predicate SessionInvariant(pool: seq<Member>, taken: seq<string>)
  {
    && Distinct(taken)
    && forall k :: 0 <= k < |taken| ==> taken[k] in Ids(pool)
  }

  /** Before anything is taken, every pool member is a candidate, in order. */
  lemma {:induction false} NothingTakenAllAvailable(pool: seq<Member>)
    ensures Available(pool, []) == pool
  {
    if pool != [] {
      NothingTakenAllAvailable(pool[1..]);
    }
  }

  /** Appending the id of a candidate keeps the session invariant. */
  lemma DrawKeepsInvariant(pool: seq<Member>, taken: seq<string>, i: nat)
    requires SessionInvariant(pool, taken)
    requires i < |Available(pool, taken)|
    ensures SessionInvariant(pool, taken + [Available(pool, taken)[i].id])
  {
    var m := Available(pool, taken)[i];
    assert m in Available(pool, taken);
    var k :| 0 <= k < |pool| && pool[k] == m;
    assert Ids(pool)[k] == m.id;
  }

  /** The id set of a non-empty pool splits into its head's id and the rest's. */
  lemma IdsSplit(pool: seq<Member>)
    requires pool != [] && DistinctIds(pool)
    ensures DistinctIds(pool[1..])
    ensures Elements(Ids(pool)) == {pool[0].id} + Elements(Ids(pool[1..]))
    ensures pool[0].id !in Elements(Ids(pool[1..]))
  {
    assert Ids(pool) == [pool[0].id] + Ids(pool[1..]);
    assert Ids(pool[1..]) == Ids(pool)[1..];
  }

  /**
   * Counting the candidates: with unique pool ids, the candidates are the
   * pool minus the pool ids already taken.
   */
  lemma {:induction false} AvailableSize(pool: seq<Member>, taken: seq<string>)
    requires DistinctIds(pool)
    ensures |Available(pool, taken)| == |pool| - |Elements(taken) * Elements(Ids(pool))|
  {
    if pool != [] {
      var rest := pool[1..];
      IdsSplit(pool);
      AvailableSize(rest, taken);
      var t, p, r := Elements(taken), Elements(Ids(pool)), Elements(Ids(rest));
      if pool[0].id in taken {
        assert t * p == {pool[0].id} + t * r;
      } else {
        assert t * p == t * r;
      }
    }
  }

  /**
   * In a session over a pool with unique ids, each draw so far removed
   * exactly one candidate: |available| == |pool| - |taken|.
   */
  lemma AvailableCount(pool: seq<Member>, taken: seq<string>)
    requires DistinctIds(pool)
    requires SessionInvariant(pool, taken)
    ensures |taken| <= |pool|
    ensures |Available(pool, taken)| == |pool| - |taken|
  {
    AvailableSize(pool, taken);
    DistinctSize(taken);
    assert Elements(taken) * Elements(Ids(pool)) == Elements(taken);
  }

  /**
   * Exhaustion: over a pool of N unique ids, the candidates run out exactly
   * when N ids have been taken.
   */
  lemma ExhaustedIff(pool: seq<Member>, taken: seq<string>)
    requires DistinctIds(pool)
    requires SessionInvariant(pool, taken)
    ensures |taken| <= |pool|
    ensures Available(pool, taken) == [] <==> |taken| == |pool|
  {
    AvailableCount(pool, taken);
  }

  /** The draw button's state: disabled while loading or when the pool is empty. */
  function PickDisabled(loading: bool, pool: seq<Member>): bool
  {
    loading || |pool| == 0
  }

  /**
   * An enabled draw button on a fresh session always finds a candidate, and
   * an empty pool always disables it.
   */
  lemma EnabledFreshDrawSucceeds(loading: bool, pool: seq<Member>)
    ensures !PickDisabled(loading, pool) ==> Available(pool, []) != []
    ensures |pool| == 0 ==> PickDisabled(loading, pool)
  {
    NothingTakenAllAvailable(pool);
  }
}
