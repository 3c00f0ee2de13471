/**
 * The map picker: each draw pins the drawn member to a coordinate and later
 * labels the pin with the country the reverse geocoder names.
 */
module MapGame {
  import opened Wrappers
  import opened Roster
  import opened Draw

  const UnknownLocation: string := "Unknown Location"

  /** A generated pin position, kept opaque (its generation is floating point). */
  datatype Coordinates = Coordinates(lat: real, lng: real)

  /** A drawn member with its pin, its country label and whether the label is pending. */
  datatype MapPick = MapPick(member: Member, coordinates: Coordinates,
                             country: Option<string>, isLoadingCountry: bool)

  /**
   * What the reverse-geocoding request produced: a non-ok HTTP status, a
   * thrown error (network, malformed JSON), or a body whose `address.country`
   * is present or missing.
   */
  datatype GeocodeReply = NotOk | Threw | Body(country: Option<string>)

  /** True when the reply carries a usable (present and non-empty) country. */
  predicate HasCountry(reply: GeocodeReply)
  {
    reply.Body? && reply.country.Some? && reply.country.value != ""
  }

  /**
   * The country lookup's result: the reported country when there is one,
   * otherwise the fixed fallback label.
   */
  function CountryName(reply: GeocodeReply): (r: string)
    ensures r != ""
    ensures HasCountry(reply) ==> r == reply.country.value
    ensures !HasCountry(reply) ==> r == UnknownLocation
  {
    if HasCountry(reply) then reply.country.value else UnknownLocation
  }

  /** The ids of the drawn members, in draw order. */
  function PickIds(picked: seq<MapPick>): seq<string>
  {
    seq(|picked|, k requires 0 <= k < |picked| => picked[k].member.id)
  }

  /** A pick whose country label has arrived. */
  function Labelled(p: MapPick, country: string): MapPick
  {
    p.(country := Some(country), isLoadingCountry := false)
  }

  /**
   * The history after a country label arrives for `memberId`: entries with
   * that id get the label and stop loading, all others stay identical.
   */
  function WithCountry(picked: seq<MapPick>, memberId: string, country: string): (r: seq<MapPick>)
    ensures |r| == |picked|
    ensures forall k :: 0 <= k < |picked| && picked[k].member.id == memberId ==>
              r[k] == Labelled(picked[k], country)
    ensures forall k :: 0 <= k < |picked| && picked[k].member.id != memberId ==>
              r[k] == picked[k]
  {
    if picked == [] then []
    else
      (if picked[0].member.id == memberId then [Labelled(picked[0], country)] else [picked[0]])
      + WithCountry(picked[1..], memberId, country)
  }

  /** Labelling never changes which members have been drawn, nor their order. */
  lemma WithCountryKeepsIds(picked: seq<MapPick>, memberId: string, country: string)
    ensures PickIds(WithCountry(picked, memberId, country)) == PickIds(picked)
  {
    var r := WithCountry(picked, memberId, country);
    assert forall k :: 0 <= k < |picked| ==> r[k].member == picked[k].member;
  }

  /** When two labels arrive for the same member, the later one wins. */
  lemma WithCountryLastWins(picked: seq<MapPick>, memberId: string, first: string, second: string)
    ensures WithCountry(WithCountry(picked, memberId, first), memberId, second)
         == WithCountry(picked, memberId, second)
  {
    var once := WithCountry(picked, memberId, first);
    assert forall k :: 0 <= k < |picked| ==> once[k].member == picked[k].member;
  }

  /** One map-game screen: the frozen active pool and the draw history. */
  class MapSession {
    var teamMembers: seq<Member>
    var pickedMembers: seq<MapPick>
    var currentPick: Option<MapPick>
    var error: string

    ghost predicate Valid()
      reads this
    {
      SessionInvariant(teamMembers, PickIds(pickedMembers))
    }

    /** The candidates of the next draw. */
    function Candidates(): (r: seq<Member>)
      reads this
    {
      Available(teamMembers, PickIds(pickedMembers))
    }

    /**
     * A screen after its one roster fetch: `fetched` is the list the team
     * endpoint returned, or None if the request failed. The pool keeps only
     * the active members.
     */
    constructor (fetched: Option<seq<Member>>)
      ensures Valid()
      ensures teamMembers == (if fetched.Some? then ActiveOnly(fetched.value) else [])
      ensures pickedMembers == [] && currentPick == None
      ensures error == (if fetched.Some? then "" else LoadFailedMessage)
    {
      teamMembers := if fetched.Some? then ActiveOnly(fetched.value) else [];
      pickedMembers := [];
      currentPick := None;
      error := if fetched.Some? then "" else LoadFailedMessage;
    }

    /**
     * Draw a member: `i` is the random index into the candidates and
     * `coordinates` the random pin. With no candidates left the history is
     * kept, the current pick cleared and the "all picked" message shown.
     */
    method Pick(i: nat, coordinates: Coordinates)
      requires Valid()
      requires Candidates() != [] ==> i < |Candidates()|
      modifies this
      ensures Valid()
      ensures teamMembers == old(teamMembers)
      ensures old(Candidates()) == [] ==>
                && pickedMembers == old(pickedMembers)
                && currentPick == None
                && error == AllPickedMessage
                && Candidates() == []
      ensures old(Candidates()) != [] ==>
                var p := MapPick(old(Candidates())[i], coordinates, None, true);
                && pickedMembers == old(pickedMembers) + [p]
                && currentPick == Some(p)
                && error == ""
      ensures currentPick.Some? ==>
                && currentPick.value.member in teamMembers
                && currentPick.value.member.id !in PickIds(old(pickedMembers))
      ensures DistinctIds(teamMembers) ==>
                (currentPick.Some? <==> |old(pickedMembers)| < |teamMembers|)
    {
      var available := Available(teamMembers, PickIds(pickedMembers));
      if DistinctIds(teamMembers) {
        ExhaustedIff(teamMembers, PickIds(pickedMembers));
      }
      if available == [] {
        error := AllPickedMessage;
        currentPick := None;
        return;
      }
      var picked := MapPick(available[i], coordinates, None, true);
      DrawKeepsInvariant(teamMembers, PickIds(pickedMembers), i);
      assert PickIds(pickedMembers + [picked]) == PickIds(pickedMembers) + [picked.member.id];
      currentPick := Some(picked);
      pickedMembers := pickedMembers + [picked];
      error := "";
    }

    /** Start over: forget every draw, keep the pool. */
    method Reset()
      modifies this
      ensures Valid()
      ensures teamMembers == old(teamMembers)
      ensures pickedMembers == [] && currentPick == None && error == ""
      ensures Candidates() == teamMembers
    {
      pickedMembers := [];
      currentPick := None;
      error := "";
      NothingTakenAllAvailable(teamMembers);
    }

    /**
     * The country lookup for `memberId` finished with `reply`: label that
     * member's entries in the history with the name CountryName derives,
     * which is never empty.
     */
    method SetCountry(memberId: string, reply: GeocodeReply)
      requires Valid()
      modifies this
      ensures Valid()
      ensures pickedMembers == WithCountry(old(pickedMembers), memberId, CountryName(reply))
      ensures forall k :: 0 <= k < |pickedMembers| && pickedMembers[k].member.id == memberId ==>
                pickedMembers[k].country.Some? && pickedMembers[k].country.value != "" &&
                !pickedMembers[k].isLoadingCountry
      ensures teamMembers == old(teamMembers) && currentPick == old(currentPick)
      ensures error == old(error)
      ensures Candidates() == old(Candidates())
    {
      var country := CountryName(reply);
      WithCountryKeepsIds(pickedMembers, memberId, country);
      pickedMembers := WithCountry(pickedMembers, memberId, country);
    }

    /**
     * While nothing has been drawn, an enabled draw button always finds a
     * candidate, and an empty pool always disables it.
     */
    lemma FreshDrawEnabled(loading: bool)
      requires Valid() && pickedMembers == []
      ensures !PickDisabled(loading, teamMembers) ==> Candidates() != []
      ensures teamMembers == [] ==> PickDisabled(loading, teamMembers)
    {
      EnabledFreshDrawSucceeds(loading, teamMembers);
    }
  }

  /** A screen whose fetched roster is three active members with unique ids. */
  method ThreeMemberSession(roster: seq<Member>, pin: Coordinates)
    requires |roster| == 3 && DistinctIds(roster)
    requires forall k :: 0 <= k < |roster| ==> roster[k].status == Active
  {
    ActiveOnlyAllActive(roster);
    var s := new MapSession(Some(roster));
    DrawThree(s, pin);
  }

  /**
   * Over a fresh pool of three unique ids, three draws give three different
   * members; see ExhaustedThenReset for what follows.
   */
  method DrawThree(s: MapSession, pin: Coordinates)
    requires s.Valid() && DistinctIds(s.teamMembers)
    requires |s.teamMembers| == 3 && s.pickedMembers == []
    modifies s
  {
    AvailableCount(s.teamMembers, PickIds(s.pickedMembers));
    s.Pick(2, pin);
    assert s.currentPick.Some? && |s.pickedMembers| == 1;
    s.Pick(0, pin);
    assert s.currentPick.Some? && |s.pickedMembers| == 2;
    s.Pick(0, pin);
    assert s.currentPick.Some? && |s.pickedMembers| == 3;
    var ids := PickIds(s.pickedMembers);
    assert ids[0] != ids[1] && ids[0] != ids[2] && ids[1] != ids[2];
    ExhaustedThenReset(s, pin);
  }

  /**
   * Once every member of a pool with unique ids has been drawn, a draw
   * reports that everybody has been picked, and a repeated draw does the
   * same; after a reset drawing starts over on the whole pool.
   */
  method ExhaustedThenReset(s: MapSession, pin: Coordinates)
    requires s.Valid() && DistinctIds(s.teamMembers)
    requires |s.pickedMembers| == |s.teamMembers| > 0
    modifies s
  {
    ExhaustedIff(s.teamMembers, PickIds(s.pickedMembers));
    var before := s.pickedMembers;
    s.Pick(0, pin);
    assert s.currentPick == None && s.error == AllPickedMessage && s.pickedMembers == before;
    s.Pick(0, pin);
    assert s.currentPick == None && s.error == AllPickedMessage && s.pickedMembers == before;
    s.Reset();
    s.Pick(0, pin);
    assert s.currentPick.Some? && |s.pickedMembers| == 1;
  }
}
