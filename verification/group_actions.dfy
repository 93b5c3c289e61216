/** The chat controller's conversation actions: per-member pin, archive and
    delete, and the group actions (create, rename, add, remove, leave,
    promote, demote). */
module GroupActions {
  import opened Optional
  import opened Store
  import opened Text
  import opened Access

  /** Overwrites the (conversation, user) membership row. */
  function SetMember(db: Db, c: ConversationId, u: UserId, m: Member): (r: Db)
    ensures r.members == db.members[(c, u) := m]
    ensures r.(members := db.members) == db
  {
    db.(members := db.members[(c, u) := m])
  }

  /** The users holding a row, deleted or not, in conversation `c`. */
  function MembersOf(db: Db, c: ConversationId): (us: set<UserId>)
    ensures forall u :: u in us <==> (c, u) in db.members
  {
    set k | k in db.members && k.0 == c :: k.1
  }

  /** `PinConversation(conversationId)`: flips the caller's pin on any row
      they hold, deleted or not. */
  function PinConversation(db: Db, caller: int, c: ConversationId): (r: Response)
    ensures r.outcome == Failure(NotMember) <==> (c, caller) !in db.members
    ensures r.outcome.Success? <==> (c, caller) in db.members
    ensures r.outcome.Failure? ==> r.db == db
    ensures r.outcome.Success? ==>
      && (c, caller) in db.members
      && r.outcome.info == PinState(!db.members[(c, caller)].isPinned)
      && r.db == SetMember(db, c, caller, db.members[(c, caller)].(isPinned := !db.members[(c, caller)].isPinned))
  {
    if (c, caller) !in db.members then Reject(db, NotMember)
    else
      var m := db.members[(c, caller)];
      Response(Success(PinState(!m.isPinned)), SetMember(db, c, caller, m.(isPinned := !m.isPinned)))
  }

  /** `ArchiveConversation(conversationId)`: flips the caller's archive flag
      on any row they hold. */
  function ArchiveConversation(db: Db, caller: int, c: ConversationId): (r: Response)
    ensures r.outcome == Failure(NotMember) <==> (c, caller) !in db.members
    ensures r.outcome.Success? <==> (c, caller) in db.members
    ensures r.outcome.Failure? ==> r.db == db
    ensures r.outcome.Success? ==>
      && (c, caller) in db.members
      && r.outcome.info == ArchiveState(!db.members[(c, caller)].isArchived)
      && r.db == SetMember(db, c, caller, db.members[(c, caller)].(isArchived := !db.members[(c, caller)].isArchived))
  {
    if (c, caller) !in db.members then Reject(db, NotMember)
    else
      var m := db.members[(c, caller)];
      Response(Success(ArchiveState(!m.isArchived)), SetMember(db, c, caller, m.(isArchived := !m.isArchived)))
  }

  /** `DeleteConversation(conversationId)`: soft-deletes the caller's row;
      the conversation itself and everyone else's rows stay. */
  function DeleteConversation(db: Db, caller: int, c: ConversationId, now: Time): (r: Response)
    ensures r.outcome == Failure(NotMember) <==> (c, caller) !in db.members
    ensures r.outcome.Success? <==> (c, caller) in db.members
    ensures r.outcome.Failure? ==> r.db == db
    ensures r.outcome.Success? ==>
      && (c, caller) in db.members
      && r.db == SetMember(db, c, caller, db.members[(c, caller)].(deletedAt := Some(now)))
      && !IsActive(r.db, c, caller)
  {
    if (c, caller) !in db.members then Reject(db, NotMember)
    else Response(Success(Done), SetMember(db, c, caller, db.members[(c, caller)].(deletedAt := Some(now))))
  }

  // ---------------------------------------------------------------------
  // CreateGroup
  // ---------------------------------------------------------------------

  /** `memberIds.Where(id => id != CurrentUserId).Distinct()`, as a set. */
  function Invitees(memberIds: seq<int>, caller: int): (us: set<UserId>)
    ensures forall u :: u in us <==> u in memberIds && u != caller
  {
    set u | u in memberIds && u != caller
  }

  /** The membership rows of a new group: the creator as admin and every
      invitee as a plain member, all joined now. */
  function GroupRows(c: ConversationId, caller: UserId, invitees: set<UserId>, now: Time): (rows: map<(ConversationId, UserId), Member>)
    requires caller !in invitees
    ensures forall k :: k in rows <==> k.0 == c && (k.1 == caller || k.1 in invitees)
    ensures forall k :: k in rows ==> rows[k] == NewMember(now, k.1 == caller)
  {
    map u | u in {caller} + invitees :: (c, u) := NewMember(now, u == caller)
  }

  /** `CreateGroup(groupName, memberIds)`. A blank name, an empty list and
      fewer than two invitees other than the caller are refused. The group
      is saved first, under the next conversation identity, with the trimmed
      name; the member rows are saved second. A creator without a user row
      fails the first save (nothing is written); an invitee without one
      fails the second, which leaves the group saved without members. */
  function CreateGroup(db: Db, caller: int, name: string, memberIds: seq<int>, now: Time): (r: Response)
    ensures r.outcome == Failure(EmptyGroupName) <==> IsBlank(DotNet, name)
    ensures r.outcome == Failure(NoMembersChosen) <==> !IsBlank(DotNet, name) && memberIds == []
    ensures r.outcome == Failure(GroupTooSmall) <==>
      !IsBlank(DotNet, name) && memberIds != [] && |Invitees(memberIds, caller)| < 2
    ensures r.outcome.Failure? ==> r.db == db
    ensures r.outcome.Success? || r.outcome == Fault ==>
      !IsBlank(DotNet, name) && |Invitees(memberIds, caller)| >= 2
    ensures r.outcome == Fault && caller !in db.users ==> r.db == db
    ensures r.outcome == Fault && caller in db.users ==>
      && r.db.members == db.members
      && r.db.nextConversationId == db.nextConversationId + 1
      && r.db.conversations == db.conversations[db.nextConversationId := Conversation(Some(Trim(DotNet, name)), true, caller, now, now)]
      && r.db.(conversations := db.conversations, nextConversationId := db.nextConversationId) == db
    ensures r.outcome.Success? <==>
      !IsBlank(DotNet, name) && |Invitees(memberIds, caller)| >= 2 && caller in db.users
      && (forall u :: u in Invitees(memberIds, caller) ==> u in db.users)
    ensures r.outcome.Success? ==>
      var c := db.nextConversationId;
      && r.outcome.info == GroupCreated(c)
      && r.db.conversations == db.conversations[c := Conversation(Some(Trim(DotNet, name)), true, caller, now, now)]
      && r.db.nextConversationId == c + 1
      && caller !in Invitees(memberIds, caller)
      && r.db.members == db.members + GroupRows(c, caller, Invitees(memberIds, caller), now)
      && r.db.(conversations := db.conversations, nextConversationId := db.nextConversationId, members := db.members) == db
  {
    if IsBlank(DotNet, name) then Reject(db, EmptyGroupName)
    else if memberIds == [] then Reject(db, NoMembersChosen)
    else
      var invitees := Invitees(memberIds, caller);
      if |invitees| < 2 then Reject(db, GroupTooSmall)
      else if caller !in db.users then Response(Fault, db)
      else
        var db1 := SaveGroup(db, caller, name, now);
        if exists u :: u in invitees && u !in db.users then Response(Fault, db1)
        else
          Response(Success(GroupCreated(db.nextConversationId)), AddGroupRows(db1, db.nextConversationId, caller, invitees, now))
  }

  /** The first save of `CreateGroup`: the group under the next
      conversation identity. */
  function SaveGroup(db: Db, caller: UserId, name: string, now: Time): Db {
    db.(conversations := db.conversations[db.nextConversationId := Conversation(Some(Trim(DotNet, name)), true, caller, now, now)],
        nextConversationId := db.nextConversationId + 1)
  }

  /** The second save of `CreateGroup`: the membership rows. */
  function AddGroupRows(db: Db, c: ConversationId, caller: UserId, invitees: set<UserId>, now: Time): Db
    requires caller !in invitees
  {
    db.(members := db.members + GroupRows(c, caller, invitees, now))
  }

  /** No membership row refers to the next conversation identity yet. */
  lemma NextConversationHasNoRows(db: Db)
    requires Valid(db)
    ensures forall k :: k in db.members ==> k.0 != db.nextConversationId
  {
    forall k | k in db.members ensures k.0 != db.nextConversationId {
      assert k.0 in db.conversations;
    }
  }

  /** Adding the rows of a new group under an unused conversation id gives
      that conversation exactly the creator and the invitees. */
  lemma FreshGroupRows(db: Db, db2: Db, c: ConversationId, caller: UserId, invitees: set<UserId>, now: Time)
    requires caller !in invitees
    requires forall k :: k in db.members ==> k.0 != c
    requires db2.members == db.members + GroupRows(c, caller, invitees, now)
    ensures MembersOf(db2, c) == {caller} + invitees
    ensures forall u :: u in MembersOf(db2, c) ==> db2.members[(c, u)] == NewMember(now, u == caller)
  {
    assert MembersOf(db2, c) == {caller} + invitees;
  }

  /** In a valid store a new group has exactly the creator and the
      invitees as active members, at least three, and the creator is its
      only admin. */
  lemma CreateGroupMembership(db: Db, caller: int, name: string, memberIds: seq<int>, now: Time)
    requires Valid(db)
    requires CreateGroup(db, caller, name, memberIds, now).outcome.Success?
    ensures var r := CreateGroup(db, caller, name, memberIds, now); var c := db.nextConversationId;
      && MembersOf(r.db, c) == {caller} + Invitees(memberIds, caller)
      && |MembersOf(r.db, c)| == 1 + |Invitees(memberIds, caller)| >= 3
      && (forall u :: u in MembersOf(r.db, c) ==> IsActive(r.db, c, u) && (r.db.members[(c, u)].isAdmin <==> u == caller))
  {
    NextConversationHasNoRows(db);
    NewGroupMembership(db, caller, name, memberIds, now);
  }

  lemma NewGroupMembership(db: Db, caller: int, name: string, memberIds: seq<int>, now: Time)
    requires forall k :: k in db.members ==> k.0 != db.nextConversationId
    requires CreateGroup(db, caller, name, memberIds, now).outcome.Success?
    ensures var r := CreateGroup(db, caller, name, memberIds, now); var c := db.nextConversationId;
      && MembersOf(r.db, c) == {caller} + Invitees(memberIds, caller)
      && |MembersOf(r.db, c)| == 1 + |Invitees(memberIds, caller)| >= 3
      && (forall u :: u in MembersOf(r.db, c) ==> IsActive(r.db, c, u) && (r.db.members[(c, u)].isAdmin <==> u == caller))
  {
    var r := CreateGroup(db, caller, name, memberIds, now);
    var invitees := Invitees(memberIds, caller);
    FreshGroupRows(db, r.db, db.nextConversationId, caller, invitees, now);
  }

  // ---------------------------------------------------------------------
  // Group administration
  // ---------------------------------------------------------------------

  /** `UpdateConversationName(conversationId, newName)`: an admin renames
      the conversation to the trimmed new name. */
  function UpdateConversationName(db: Db, caller: int, c: ConversationId, newName: string, now: Time): (r: Response)
    ensures r.outcome == Failure(NotAdmin) <==> !IsConversationAdmin(db, c, caller)
    ensures r.outcome == Failure(EmptyGroupName) <==> IsConversationAdmin(db, c, caller) && IsBlank(DotNet, newName)
    ensures r.outcome == Failure(GroupNotFound) <==>
      IsConversationAdmin(db, c, caller) && !IsBlank(DotNet, newName) && c !in db.conversations
    ensures r.outcome.Success? <==>
      IsConversationAdmin(db, c, caller) && !IsBlank(DotNet, newName) && c in db.conversations
    ensures r.outcome.Failure? ==> r.db == db
    ensures r.outcome.Success? ==>
      && c in db.conversations
      && r.db == db.(conversations := db.conversations[c := db.conversations[c].(name := Some(Trim(DotNet, newName)), updatedAt := now)])
      && Trim(DotNet, newName) != []
  {
    if !IsConversationAdmin(db, c, caller) then Reject(db, NotAdmin)
    else if IsBlank(DotNet, newName) then Reject(db, EmptyGroupName)
    else if c !in db.conversations then Reject(db, GroupNotFound)
    else
      BlankIffTrimEmpty(DotNet, newName);
      Response(Success(Done),
               db.(conversations := db.conversations[c := db.conversations[c].(name := Some(Trim(DotNet, newName)), updatedAt := now)]))
  }

  /** A group conversation exists under this id. */
  predicate IsGroup(db: Db, c: ConversationId) {
    c in db.conversations && db.conversations[c].isGroup
  }

  /** `AddMember(conversationId, userId)`: an admin adds a user to a group.
      An active member is refused; a soft-deleted one is restored (joined
      now, every other column, admin flag included, as it was); anyone else
      gets a new plain row, which the foreign key refuses for an unknown
      user. The group's `UpdatedAt` moves to now. */
  function AddMember(db: Db, caller: int, c: ConversationId, u: int, now: Time): (r: Response)
    ensures r.outcome == Failure(NotAdmin) <==> !IsConversationAdmin(db, c, caller)
    ensures r.outcome == Failure(GroupNotFound) <==> IsConversationAdmin(db, c, caller) && !IsGroup(db, c)
    ensures r.outcome == Failure(AlreadyMember) <==>
      IsConversationAdmin(db, c, caller) && IsGroup(db, c) && IsActive(db, c, u)
    ensures r.outcome == Fault <==>
      IsConversationAdmin(db, c, caller) && IsGroup(db, c) && (c, u) !in db.members && u !in db.users
    ensures r.outcome.Success? <==>
      IsConversationAdmin(db, c, caller) && IsGroup(db, c) && !IsActive(db, c, u) && ((c, u) in db.members || u in db.users)
    ensures !r.outcome.Success? ==> r.db == db
    ensures r.outcome.Success? ==>
      && IsGroup(db, c) && IsActive(r.db, c, u)
      && r.db.members.Keys == db.members.Keys + {(c, u)}
      && ((c, u) in db.members ==> r.db.members[(c, u)] == db.members[(c, u)].(deletedAt := None, joinedAt := now))
      && ((c, u) !in db.members ==> r.db.members[(c, u)] == NewMember(now, false))
      && (forall k :: k in db.members && k != (c, u) ==> r.db.members[k] == db.members[k])
      && r.db.conversations == db.conversations[c := db.conversations[c].(updatedAt := now)]
      && r.db.(members := db.members, conversations := db.conversations) == db
  {
    if !IsConversationAdmin(db, c, caller) then Reject(db, NotAdmin)
    else if !IsGroup(db, c) then Reject(db, GroupNotFound)
    else if IsActive(db, c, u) then Reject(db, AlreadyMember)
    else if (c, u) !in db.members && u !in db.users then Response(Fault, db)
    else
      var row := if (c, u) in db.members then db.members[(c, u)].(deletedAt := None, joinedAt := now)
                 else NewMember(now, false);
      Response(Success(Done),
               SetMember(db, c, u, row).(conversations := db.conversations[c := db.conversations[c].(updatedAt := now)]))
  }

  /** `RemoveMember(conversationId, userId)`: an admin soft-deletes another
      user's row, deleted already or not. */
  function RemoveMember(db: Db, caller: int, c: ConversationId, u: int, now: Time): (r: Response)
    ensures r.outcome == Failure(NotAdmin) <==> !IsConversationAdmin(db, c, caller)
    ensures r.outcome == Failure(CannotRemoveSelf) <==> IsConversationAdmin(db, c, caller) && u == caller
    ensures r.outcome == Failure(MemberNotFound) <==>
      IsConversationAdmin(db, c, caller) && u != caller && (c, u) !in db.members
    ensures r.outcome.Success? <==> IsConversationAdmin(db, c, caller) && u != caller && (c, u) in db.members
    ensures r.outcome.Failure? ==> r.db == db
    ensures r.outcome.Success? ==>
      && (c, u) in db.members
      && r.db == SetMember(db, c, u, db.members[(c, u)].(deletedAt := Some(now)))
  {
    if !IsConversationAdmin(db, c, caller) then Reject(db, NotAdmin)
    else if u == caller then Reject(db, CannotRemoveSelf)
    else if (c, u) !in db.members then Reject(db, MemberNotFound)
    else Response(Success(Done), SetMember(db, c, u, db.members[(c, u)].(deletedAt := Some(now))))
  }

  /** The active admins of `c` other than `u`: the `adminCount` query. */
  function OtherActiveAdmins(db: Db, c: ConversationId, u: UserId): (us: set<UserId>)
    ensures forall v :: v in us <==> v != u && IsActive(db, c, v) && db.members[(c, v)].isAdmin
  {
    set k | k in db.members && k.0 == c && k.1 != u && db.members[k].isAdmin && db.members[k].deletedAt.None? :: k.1
  }

  /** `LeaveGroup(conversationId)`: the caller soft-deletes their own row
      in a group, unless they are flagged admin and no other active admin
      remains, even when nobody else is left in the group. */
  function LeaveGroup(db: Db, caller: int, c: ConversationId, now: Time): (r: Response)
    ensures r.outcome == Failure(NotMember) <==> (c, caller) !in db.members
    ensures r.outcome == Failure(GroupNotFound) <==> (c, caller) in db.members && !IsGroup(db, c)
    ensures r.outcome == Failure(SoleAdmin) <==>
      (c, caller) in db.members && IsGroup(db, c) && db.members[(c, caller)].isAdmin
      && OtherActiveAdmins(db, c, caller) == {}
    ensures r.outcome.Success? <==>
      (c, caller) in db.members && IsGroup(db, c)
      && (!db.members[(c, caller)].isAdmin || OtherActiveAdmins(db, c, caller) != {})
    ensures r.outcome.Failure? ==> r.db == db
    ensures r.outcome.Success? ==>
      && (c, caller) in db.members
      && r.db == SetMember(db, c, caller, db.members[(c, caller)].(deletedAt := Some(now)))
  {
    if (c, caller) !in db.members then Reject(db, NotMember)
    else if !IsGroup(db, c) then Reject(db, GroupNotFound)
    else if db.members[(c, caller)].isAdmin && |OtherActiveAdmins(db, c, caller)| == 0 then Reject(db, SoleAdmin)
    else Response(Success(Done), SetMember(db, c, caller, db.members[(c, caller)].(deletedAt := Some(now))))
  }

  /** `PromoteToAdmin(conversationId, userId)`. */
  function PromoteToAdmin(db: Db, caller: int, c: ConversationId, u: int): (r: Response)
    ensures r.outcome == Failure(NotAdmin) <==> !IsConversationAdmin(db, c, caller)
    ensures r.outcome == Failure(MemberNotFound) <==> IsConversationAdmin(db, c, caller) && (c, u) !in db.members
    ensures r.outcome == Failure(AlreadyAdmin) <==>
      IsConversationAdmin(db, c, caller) && IsConversationAdmin(db, c, u)
    ensures r.outcome.Success? <==>
      IsConversationAdmin(db, c, caller) && (c, u) in db.members && !db.members[(c, u)].isAdmin
    ensures r.outcome.Failure? ==> r.db == db
    ensures r.outcome.Success? ==>
      && (c, u) in db.members && !db.members[(c, u)].isAdmin
      && r.db == SetMember(db, c, u, db.members[(c, u)].(isAdmin := true))
  {
    if !IsConversationAdmin(db, c, caller) then Reject(db, NotAdmin)
    else if (c, u) !in db.members then Reject(db, MemberNotFound)
    else if db.members[(c, u)].isAdmin then Reject(db, AlreadyAdmin)
    else Response(Success(Done), SetMember(db, c, u, db.members[(c, u)].(isAdmin := true)))
  }

  /** `DemoteFromAdmin(conversationId, userId)`: never the caller. */
  function DemoteFromAdmin(db: Db, caller: int, c: ConversationId, u: int): (r: Response)
    ensures r.outcome == Failure(NotAdmin) <==> !IsConversationAdmin(db, c, caller)
    ensures r.outcome == Failure(CannotDemoteSelf) <==> IsConversationAdmin(db, c, caller) && u == caller
    ensures r.outcome == Failure(MemberNotFound) <==>
      IsConversationAdmin(db, c, caller) && u != caller && (c, u) !in db.members
    ensures r.outcome == Failure(NotAnAdmin) <==>
      IsConversationAdmin(db, c, caller) && u != caller && (c, u) in db.members && !db.members[(c, u)].isAdmin
    ensures r.outcome.Success? <==> IsConversationAdmin(db, c, caller) && u != caller && IsConversationAdmin(db, c, u)
    ensures r.outcome.Failure? ==> r.db == db
    ensures r.outcome.Success? ==>
      && IsConversationAdmin(db, c, u) && u != caller
      && r.db == SetMember(db, c, u, db.members[(c, u)].(isAdmin := false))
  {
    if !IsConversationAdmin(db, c, caller) then Reject(db, NotAdmin)
    else if u == caller then Reject(db, CannotDemoteSelf)
    else if (c, u) !in db.members then Reject(db, MemberNotFound)
    else if !db.members[(c, u)].isAdmin then Reject(db, NotAnAdmin)
    else Response(Success(Done), SetMember(db, c, u, db.members[(c, u)].(isAdmin := false)))
  }
}
