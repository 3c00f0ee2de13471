/**
 * Team-member records as the team endpoints return them, and the filters and
 * identity facts shared by the roster screen and the two picker games.
 */
module Roster {
  import opened Collections

  /** One roster row. `status` is kept as the raw string the client sees. */
  datatype Member = Member(id: string, name: string, status: string, createdAt: int)

  const Active: string := "active"
  const Inactive: string := "inactive"

  /** The banner every roster screen shows when its roster fetch fails. */
  const LoadFailedMessage: string := "Failed to load team members"

  /** The ids of a list of members, in list order. */
  function Ids(s: seq<Member>): seq<string>
  {
    seq(|s|, k requires 0 <= k < |s| => s[k].id)
  }

  /** No two members share an id (the store's ids are unique). */
  predicate DistinctIds(s: seq<Member>)
  {
    Distinct(Ids(s))
  }

  /**
   * The pool of a picker game: the fetched members whose status is exactly
   * "active", in their fetched order.
   */
  function ActiveOnly(s: seq<Member>): (r: seq<Member>)
    ensures forall m :: m in r <==> m in s && m.status == Active
    ensures |r| <= |s|
  {
    if s == [] then []
    else (if s[0].status == Active then [s[0]] else []) + ActiveOnly(s[1..])
  }

  /** Filtering distributes over concatenation: the pool keeps the fetched order. */
  lemma {:induction false} ActiveOnlyAppend(a: seq<Member>, b: seq<Member>)
    ensures ActiveOnly(a + b) == ActiveOnly(a) + ActiveOnly(b)
  {
    if a == [] {
      assert a + b == b;
    } else {
      assert (a + b)[1..] == a[1..] + b;
      ActiveOnlyAppend(a[1..], b);
    }
  }

  /** A list whose members are all active is its own pool. */
  lemma {:induction false} ActiveOnlyAllActive(s: seq<Member>)
    requires forall k :: 0 <= k < |s| ==> s[k].status == Active
    ensures ActiveOnly(s) == s
  {
    if s != [] {
      ActiveOnlyAllActive(s[1..]);
    }
  }

  /** A list without active members gives an empty pool. */
  lemma {:induction false} ActiveOnlyNoneActive(s: seq<Member>)
    requires forall k :: 0 <= k < |s| ==> s[k].status != Active
    ensures ActiveOnly(s) == []
  {
    if s != [] {
      ActiveOnlyNoneActive(s[1..]);
    }
  }
}
