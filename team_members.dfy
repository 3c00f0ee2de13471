/**
 * The roster screen: a local copy of the roster list, updated after each
 * request to the team endpoints succeeds.
 */
module TeamMembers {
  import opened Wrappers
  import opened Roster

  const AddFailedMessage: string := "Failed to add team member"
  const UpdateFailedMessage: string := "Failed to update team member status"
  const DeleteFailedMessage: string := "Failed to delete team member"
  const DeleteAllFailedMessage: string := "Failed to delete all team members"

  /** The status a toggle asks for: "active" becomes "inactive", anything else "active". */
  function Toggled(status: string): (r: string)
    ensures r == Active || r == Inactive
    ensures r == Inactive <==> status == Active
  {
    if status == Active then Inactive else Active
  }

  /** On the two statuses the store accepts, toggling twice gives the status back. */
  lemma ToggleInvolution(status: string)
    requires status == Active || status == Inactive
    ensures Toggled(Toggled(status)) == status
  {
  }

  /** The list after a successful add: the created record at the end. */
  function Appended(list: seq<Member>, created: Member): (r: seq<Member>)
    ensures |r| == |list| + 1
    ensures r[..|list|] == list && r[|list|] == created
  {
    list + [created]
  }

  /**
   * The list after a successful status update: every entry with id `id` is
   * replaced by the record the server returned, all others stay as they were.
   */
  function Replaced(list: seq<Member>, id: string, updated: Member): (r: seq<Member>)
    ensures |r| == |list|
    ensures forall k :: 0 <= k < |list| && list[k].id == id ==> r[k] == updated
    ensures forall k :: 0 <= k < |list| && list[k].id != id ==> r[k] == list[k]
  {
    if list == [] then []
    else [if list[0].id == id then updated else list[0]] + Replaced(list[1..], id, updated)
  }

  /** The list after a successful delete: the entries without id `id`, in order. */
  function Removed(list: seq<Member>, id: string): (r: seq<Member>)
    ensures forall m :: m in r <==> m in list && m.id != id
    ensures |r| <= |list|
  {
    if list == [] then []
    else (if list[0].id == id then [] else [list[0]]) + Removed(list[1..], id)
  }

  /** Deleting distributes over concatenation: the survivors keep their order. */
  lemma {:induction false} RemovedAppend(a: seq<Member>, b: seq<Member>, id: string)
    ensures Removed(a + b, id) == Removed(a, id) + Removed(b, id)
  {
    if a == [] {
      assert a + b == b;
    } else {
      assert (a + b)[1..] == a[1..] + b;
      RemovedAppend(a[1..], b, id);
    }
  }

  /** Deleting an id nobody has changes nothing. */
  lemma {:induction false} RemovedAbsent(list: seq<Member>, id: string)
    requires id !in Ids(list)
    ensures Removed(list, id) == list
  {
    if list != [] {
      assert Ids(list)[0] == list[0].id;
      assert Ids(list[1..]) == Ids(list)[1..];
      RemovedAbsent(list[1..], id);
    }
  }

  /** Adding a record with a fresh id and then deleting it gives the list back. */
  lemma AddThenDelete(list: seq<Member>, created: Member)
    requires created.id !in Ids(list)
    ensures Removed(Appended(list, created), created.id) == list
  {
    RemovedAppend(list, [created], created.id);
    RemovedAbsent(list, created.id);
  }

  /** A status update never affects the members that survive a delete of that id. */
  lemma {:induction false} ReplacedThenRemoved(list: seq<Member>, id: string, updated: Member)
    requires updated.id == id
    ensures Removed(Replaced(list, id, updated), id) == Removed(list, id)
  {
    if list != [] {
      ReplacedThenRemoved(list[1..], id, updated);
      assert Replaced(list, id, updated)[1..] == Replaced(list[1..], id, updated);
    }
  }

  /** A status update that returns the same id keeps every id in place. */
  lemma ReplacedKeepsIds(list: seq<Member>, id: string, updated: Member)
    requires updated.id == id
    ensures Ids(Replaced(list, id, updated)) == Ids(list)
  {
  }

  /** What the add request produced. */
  datatype AddReply =
    | Created(member: Member)              // 2xx: the created record
    | Refused(serverError: Option<string>) // non-2xx: the body's `error`, if any
    | Threw(message: string)               // the request or its body threw

  /** The error shown when an add does not succeed. */
  function AddError(reply: AddReply): (r: string)
    requires !reply.Created?
    ensures reply.Refused? && reply.serverError.Some? && reply.serverError.value != "" ==>
              r == reply.serverError.value
    ensures reply.Refused? && (reply.serverError.None? || reply.serverError.value == "") ==>
              r == AddFailedMessage
    ensures reply.Threw? ==> r == reply.message
    ensures reply.Refused? ==> r != ""
  {
    match reply
    case Refused(e) => if e.Some? && e.value != "" then e.value else AddFailedMessage
    case Threw(message) => message
  }

  /** The roster screen's state: the list shown and the error banner. */
  class Panel {
    var teamMembers: seq<Member>
    var error: Option<string>

    /**
     * The screen after its roster fetch: `fetched` is the list the team
     * endpoint returned, or None if the request failed.
     */
    constructor (fetched: Option<seq<Member>>)
      ensures teamMembers == (if fetched.Some? then fetched.value else [])
      ensures error == Some(if fetched.Some? then "" else LoadFailedMessage)
    {
      teamMembers := if fetched.Some? then fetched.value else [];
      error := Some(if fetched.Some? then "" else LoadFailedMessage);
    }

    /** The add form was submitted and the POST answered `reply`. */
    method AddMember(reply: AddReply)
      modifies this
      ensures reply.Created? ==> teamMembers == Appended(old(teamMembers), reply.member)
      ensures reply.Created? ==> error == Some("")
      ensures !reply.Created? ==> teamMembers == old(teamMembers) && error == Some(AddError(reply))
    {
      if reply.Created? {
        teamMembers := Appended(teamMembers, reply.member);
        error := Some("");
      } else {
        error := Some(AddError(reply));
      }
    }

    /**
     * The status button of member `id` showing `currentStatus` was pressed;
     * `reply` is the updated record, or None if the PATCH failed. Returns the
     * status the request asked for.
     */
    method ToggleStatus(id: string, currentStatus: string, reply: Option<Member>)
      returns (requested: string)
      modifies this
      ensures requested == Toggled(currentStatus)
      ensures reply.Some? ==> teamMembers == Replaced(old(teamMembers), id, reply.value)
      ensures reply.Some? ==> error == Some("")
      ensures reply.None? ==> teamMembers == old(teamMembers) && error == Some(UpdateFailedMessage)
    {
      requested := Toggled(currentStatus);
      if reply.Some? {
        teamMembers := Replaced(teamMembers, id, reply.value);
        error := Some("");
      } else {
        error := Some(UpdateFailedMessage);
      }
    }

    /** The delete button of member `id` was pressed; `ok` tells whether the DELETE succeeded. */
    method DeleteMember(id: string, ok: bool)
      modifies this
      ensures ok ==> teamMembers == Removed(old(teamMembers), id) && error == Some("")
      ensures !ok ==> teamMembers == old(teamMembers) && error == Some(DeleteFailedMessage)
    {
      if ok {
        teamMembers := Removed(teamMembers, id);
        error := Some("");
      } else {
        error := Some(DeleteFailedMessage);
      }
    }

    /**
     * "Delete All" was pressed: `confirmed` is the user's answer to the
     * confirmation dialog and `ok` whether the bulk DELETE succeeded.
     */
    method DeleteAllMembers(confirmed: bool, ok: bool)
      modifies this
      ensures !confirmed ==> teamMembers == old(teamMembers) && error == old(error)
      ensures confirmed && ok ==> teamMembers == [] && error == Some("")
      ensures confirmed && !ok ==> teamMembers == old(teamMembers) && error == Some(DeleteAllFailedMessage)
    {
      if !confirmed {
        return;
      }
      if ok {
        teamMembers := [];
        error := Some("");
      } else {
        error := Some(DeleteAllFailedMessage);
      }
    }
  }
}
