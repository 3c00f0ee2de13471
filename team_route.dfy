/**
 * The `/api/team` endpoint: GET lists the roster newest first, POST
 * creates a member after an ordered chain of checks.
 */
module TeamRoute {
  import opened Wrappers
  import opened Roster

  const Unauthorized: string := "Unauthorized"
  const FetchFailed: string := "Error fetching team members"
  const CreateFailed: string := "Error creating team member"
  const FieldsRequired: string := "Name and status are required"
  const BadStatus: string := "Status must be either 'active' or 'inactive'"

  /** A JSON response: the HTTP status and its body. */
  datatype Body = Failure(error: string) | One(member: Member) | Many(members: seq<Member>)
  datatype Response = Response(status: int, body: Body)

  /** The request body of a POST: not JSON at all, or its `name` and `status` fields. */
  datatype PostBody = Unparsable | Fields(name: Option<string>, status: Option<string>)

  /** What the store assigns to a created row. */
  datatype Stamp = Stamp(id: string, createdAt: int)

  /** A field the route treats as present: there and not the empty string. */
  predicate Given(field: Option<string>) {
    field.Some? && field.value != ""
  }

  predicate AllowedStatus(status: string) {
    status == Active || status == Inactive
  }

  /**
   * POST. `signedIn` is the outcome of the session lookup, `body` the parsed
   * request and `stored` what the store returned for the insert (None when
   * it threw); `stored` only matters once every check has passed.
   */
  function Post(signedIn: bool, body: PostBody, stored: Option<Stamp>): (r: Response)
    ensures r.status in {201, 400, 401, 500}
    ensures r.status == 401 <==> !signedIn
    ensures r.status == 201 ==> r.body.One?
    ensures r.status != 201 ==> r.body.Failure?
    ensures signedIn && body.Unparsable? ==> r == Response(500, Failure(CreateFailed))
    ensures signedIn && body.Fields? && !(Given(body.name) && Given(body.status)) ==>
              r == Response(400, Failure(FieldsRequired))
    ensures signedIn && body.Fields? && Given(body.name) && Given(body.status) &&
              !AllowedStatus(body.status.value) ==>
              r == Response(400, Failure(BadStatus))
    ensures signedIn && body.Fields? && Given(body.name) && Given(body.status) &&
              AllowedStatus(body.status.value) && stored.None? ==>
              r == Response(500, Failure(CreateFailed))
  {
    if !signedIn then Response(401, Failure(Unauthorized))
    else if body.Unparsable? then Response(500, Failure(CreateFailed))
    else if !Given(body.name) || !Given(body.status) then Response(400, Failure(FieldsRequired))
    else if !AllowedStatus(body.status.value) then Response(400, Failure(BadStatus))
    else if stored.None? then Response(500, Failure(CreateFailed))
    else Response(201, One(Member(stored.value.id, body.name.value, body.status.value, stored.value.createdAt)))
  }

  /** Without a session the answer is 401 whatever the body and the store would have done. */
  lemma PostUnauthorizedFirst(body: PostBody, other: PostBody, stored: Option<Stamp>, otherStored: Option<Stamp>)
    ensures Post(false, body, stored) == Post(false, other, otherStored) == Response(401, Failure(Unauthorized))
  {
  }

  /**
   * A 201 happens exactly when the caller is signed in, both fields are
   * given, the status is allowed and the store succeeded; the created record
   * carries the given name and status and the store's id and timestamp.
   */
  lemma PostCreatedIff(signedIn: bool, body: PostBody, stored: Option<Stamp>)
    ensures Post(signedIn, body, stored).status == 201 <==>
              signedIn && body.Fields? && Given(body.name) && Given(body.status) &&
              AllowedStatus(body.status.value) && stored.Some?
    ensures Post(signedIn, body, stored).status == 201 ==>
              Post(signedIn, body, stored).body.member ==
                Member(stored.value.id, body.name.value, body.status.value, stored.value.createdAt)
  {
  }

  /**
   * The status message is given exactly for a signed-in request whose name
   * and status are both present and whose status is not allowed: the
   * presence check runs first, so a missing status never gets it.
   */
  lemma PostBadStatusIff(signedIn: bool, body: PostBody, stored: Option<Stamp>)
    ensures Post(signedIn, body, stored) == Response(400, Failure(BadStatus)) <==>
              signedIn && body.Fields? && Given(body.name) && Given(body.status) &&
              !AllowedStatus(body.status.value)
  {
  }

  /** The order GET promises: no row is older than a row after it. */
  predicate NewestFirst(s: seq<Member>) {
    forall i, j :: 0 <= i < j < |s| ==> s[i].createdAt >= s[j].createdAt
  }

  /** A row no older than the head of a newest-first list can go in front of it. */
  lemma ConsNewestFirst(x: Member, s: seq<Member>)
    requires NewestFirst(s)
    requires s != [] ==> x.createdAt >= s[0].createdAt
    ensures NewestFirst([x] + s)
  {
    var t := [x] + s;
    forall i, j | 0 <= i < j < |t|
      ensures t[i].createdAt >= t[j].createdAt
    {
      if i == 0 && j > 1 {
        assert t[j] == s[j - 1];
        assert s[0].createdAt >= s[j - 1].createdAt;
      }
    }
  }

  /** `m` inserted into a newest-first list, before the first row that is no newer. */
  function Insert(m: Member, s: seq<Member>): (r: seq<Member>)
    requires NewestFirst(s)
    ensures NewestFirst(r)
    ensures multiset(r) == multiset(s) + multiset{m}
    ensures |r| == |s| + 1
    ensures r[0] == (if s == [] || m.createdAt >= s[0].createdAt then m else s[0])
  {
    if s == [] then [m]
    else if m.createdAt >= s[0].createdAt then
      ConsNewestFirst(m, s);
      [m] + s
    else
      var rest := Insert(m, s[1..]);
      assert s == [s[0]] + s[1..];
      ConsNewestFirst(s[0], rest);
      [s[0]] + rest
  }

  /** The rows in the order GET returns them: newest first, the same rows. */
  function SortNewestFirst(rows: seq<Member>): (r: seq<Member>)
    ensures NewestFirst(r)
    ensures multiset(r) == multiset(rows)
  {
    if rows == [] then []
    else
      assert rows == [rows[0]] + rows[1..];
      Insert(rows[0], SortNewestFirst(rows[1..]))
  }

  /**
   * GET. `signedIn` is the session lookup, `rows` what the store returned
   * (None when it threw).
   */
  function Get(signedIn: bool, rows: Option<seq<Member>>): (r: Response)
    ensures !signedIn ==> r == Response(401, Failure(Unauthorized))
    ensures signedIn && rows.None? ==> r == Response(500, Failure(FetchFailed))
    ensures signedIn && rows.Some? ==>
              r.status == 200 && r.body.Many? && NewestFirst(r.body.members) &&
              multiset(r.body.members) == multiset(rows.value)
  {
    if !signedIn then Response(401, Failure(Unauthorized))
    else if rows.None? then Response(500, Failure(FetchFailed))
    else Response(200, Many(SortNewestFirst(rows.value)))
  }
}
