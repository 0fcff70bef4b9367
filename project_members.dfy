/** The members panel of a project: the users who can still be added (those
    who are not members yet), the add form and member removal. */
module ProjectMembers {
  import opened Records
  import opened Seqs

  datatype AppUser = AppUser(id: string, fullName: Option<string>, email: Option<string>)

  /** `memberIds`: the user id of each member (missing ones included). */
  function MemberIds(members: seq<Member>): (ids: seq<Option<string>>)
    ensures |ids| == |members|
    ensures forall i :: 0 <= i < |members| ==> ids[i] == members[i].userId
  {
    Map(members, (m: Member) => m.userId)
  }

  function NotIn(ids: seq<Option<string>>): AppUser -> bool {
    (u: AppUser) => Some(u.id) !in ids
  }

  /** `availableUsers`. */
  function AvailableUsers(members: seq<Member>, allUsers: seq<AppUser>): (r: seq<AppUser>)
    ensures |r| <= |allUsers|
  {
    Filter(allUsers, NotIn(MemberIds(members)))
  }

  /** A user is offered exactly when they are among all users and no member
      has their id: nobody is offered twice as a member, and no non-member
      is missing from the list. */
  lemma AvailableIff(members: seq<Member>, allUsers: seq<AppUser>, u: AppUser)
    ensures u in AvailableUsers(members, allUsers) <==>
      u in allUsers && forall i :: 0 <= i < |members| ==> members[i].userId != Some(u.id)
  {
    var ids := MemberIds(members);
    FilterMembers(allUsers, NotIn(ids), u);
    if Some(u.id) in ids {
      var i :| 0 <= i < |ids| && ids[i] == Some(u.id);
      assert members[i].userId == Some(u.id);
    }
  }

  /** With no members every user is offered, in order. */
  lemma NoMembersAllAvailable(allUsers: seq<AppUser>)
    ensures AvailableUsers([], allUsers) == allUsers
  {
    FilterAll(allUsers, NotIn(MemberIds([])));
  }

  /** The option text: the full name, otherwise the e-mail. */
  function UserLabel(u: AppUser): (s: string)
    ensures u.fullName.Some? && u.fullName.value != "" ==> s == u.fullName.value
    ensures (u.fullName.None? || u.fullName.value == "") && u.email.Some? ==> s == u.email.value
    ensures (u.fullName.None? || u.fullName.value == "") && u.email.None? ==> s == ""
  {
    if u.fullName.Some? && u.fullName.value != "" then u.fullName.value
    else if u.email.Some? then u.email.value
    else ""
  }

  /** The panel's state. */
  class MembersPanel {
    var showAdd: bool
    var selectedUser: string
    var loading: bool
    var writes: seq<Write>

    constructor()
      ensures !showAdd && selectedUser == "" && !loading && writes == []
    {
      showAdd := false;
      selectedUser := "";
      loading := false;
      writes := [];
    }

    /** The add button below the list is disabled while a request runs or
      while nothing is selected. */
    predicate AddDisabled()
      reads this
    {
      loading || selectedUser == ""
    }

    method ToggleAdd()
      modifies this`showAdd
      ensures showAdd == !old(showAdd)
    {
      showAdd := !showAdd;
    }

    method Select(userId: string)
      modifies this`selectedUser
      ensures selectedUser == userId
    {
      selectedUser := userId;
    }

    /** `handleAdd`: without a selection nothing happens; otherwise the
      membership row is inserted, and unless the request throws the
      selection is cleared and the form hidden; loading ends either way. */
    method HandleAdd(projectId: string, throws: bool)
      modifies this`showAdd, this`selectedUser, this`loading, this`writes
      ensures old(selectedUser) == "" ==> unchanged(this)
      ensures old(selectedUser) != "" ==>
        && writes == old(writes) + [InsertProjectMember(projectId, old(selectedUser))]
        && !loading
        && (throws ==> selectedUser == old(selectedUser) && showAdd == old(showAdd))
        && (!throws ==> selectedUser == "" && !showAdd)
    {
      if selectedUser == "" {
        return;
      }
      loading := true;
      writes := writes + [InsertProjectMember(projectId, selectedUser)];
      if !throws {
        selectedUser := "";
        showAdd := false;
      }
      loading := false;
    }

    /** `handleRemove`: nothing unless the user confirms; then the membership
      row is deleted. */
    method HandleRemove(memberId: string, confirmed: bool)
      modifies this`writes
      ensures writes == old(writes) + (if confirmed then [DeleteProjectMember(memberId)] else [])
    {
      if !confirmed {
        return;
      }
      writes := writes + [DeleteProjectMember(memberId)];
    }
  }
}
