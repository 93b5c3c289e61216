/** What the group actions promise and what they let through: an admin can
    only leave while another active admin remains, a lone admin can never
    leave, and because the admin test ignores soft deletion, an admin who
    left or was removed keeps every admin power, including re-adding
    themselves. */
module GroupProperties {
  import opened Optional
  import opened Store
  import opened Text
  import opened Access
  import opened GroupActions

  /** An admin who leaves successfully leaves another active admin behind. */
  lemma LeaveKeepsAnActiveAdmin(db: Db, caller: int, c: ConversationId, now: Time)
    requires (c, caller) in db.members && db.members[(c, caller)].isAdmin
    requires LeaveGroup(db, caller, c, now).outcome.Success?
    ensures var r := LeaveGroup(db, caller, c, now);
      exists u :: u != caller && IsActive(r.db, c, u) && r.db.members[(c, u)].isAdmin
  {
    var r := LeaveGroup(db, caller, c, now);
    var others := OtherActiveAdmins(db, c, caller);
    assert others != {};
    var u :| u in others;
    assert IsActive(r.db, c, u) && r.db.members[(c, u)].isAdmin;
  }

  /** An admin alone in a group can never leave it. */
  lemma LoneAdminCannotLeave(db: Db, caller: int, c: ConversationId, now: Time)
    requires (c, caller) in db.members && db.members[(c, caller)].isAdmin && IsGroup(db, c)
    requires MembersOf(db, c) == {caller}
    ensures LeaveGroup(db, caller, c, now) == Reject(db, SoleAdmin)
  {
    assert forall v :: v in OtherActiveAdmins(db, c, caller) ==> v in MembersOf(db, c);
  }

  /** A member who leaves a group stays in the admin test: an admin who has
      left can still add themselves back, and comes back as an admin. */
  lemma LeftAdminCanRejoin(db: Db, caller: int, c: ConversationId, t1: Time, t2: Time)
    requires (c, caller) in db.members && db.members[(c, caller)].isAdmin
    requires LeaveGroup(db, caller, c, t1).outcome.Success?
    ensures var s1 := LeaveGroup(db, caller, c, t1);
      var s2 := AddMember(s1.db, caller, c, caller, t2);
      && !IsActive(s1.db, c, caller)
      && s2.outcome.Success?
      && IsActive(s2.db, c, caller) && IsConversationAdmin(s2.db, c, caller)
  {
  }

  /** Removing an admin does not take away their admin powers: the removed
      admin can remove the admin who removed them. */
  lemma RemovedAdminCanRemoveBack(db: Db, a: int, b: int, c: ConversationId, t1: Time, t2: Time)
    requires a != b && IsConversationAdmin(db, c, a) && IsConversationAdmin(db, c, b)
    ensures var s1 := RemoveMember(db, a, c, b, t1);
      var s2 := RemoveMember(s1.db, b, c, a, t2);
      && s1.outcome.Success? && !IsActive(s1.db, c, b)
      && s2.outcome.Success? && !IsActive(s2.db, c, a)
  {
  }

  /** Restoring a soft-deleted member keeps the admin flag their row had. */
  lemma RestoredMemberKeepsAdminFlag(db: Db, caller: int, c: ConversationId, u: int, now: Time)
    requires (c, u) in db.members && !IsActive(db, c, u)
    requires AddMember(db, caller, c, u, now).outcome.Success?
    ensures var r := AddMember(db, caller, c, u, now);
      IsActive(r.db, c, u) && (IsConversationAdmin(r.db, c, u) <==> IsConversationAdmin(db, c, u))
  {
  }

  /** A group can end up with no active admin: a removed admin demotes the
      last active one. */
  lemma GroupCanLoseAllActiveAdmins()
    ensures var m := Member(0, None, true, false, false, None);
      var db := EmptyDb().(members := map[(1, 1) := m.(deletedAt := Some(5)), (1, 2) := m]);
      var r := DemoteFromAdmin(db, 1, 1, 2);
      && r.outcome.Success?
      && OtherActiveAdmins(db, 1, 0) == {2}
      && OtherActiveAdmins(r.db, 1, 0) == {}
  {
    var m := Member(0, None, true, false, false, None);
    var db := EmptyDb().(members := map[(1, 1) := m.(deletedAt := Some(5)), (1, 2) := m]);
    var r := DemoteFromAdmin(db, 1, 1, 2);
    assert OtherActiveAdmins(db, 1, 0) == {2} by {
      assert 2 in OtherActiveAdmins(db, 1, 0);
      forall v | v in OtherActiveAdmins(db, 1, 0) ensures v == 2 {
        assert (1, v) in db.members;
      }
    }
    assert forall v :: v in OtherActiveAdmins(r.db, 1, 0) ==> (1, v) in r.db.members;
  }

  /** Promoting and then demoting a plain member gives back the store. */
  lemma PromoteThenDemoteRestores(db: Db, caller: int, c: ConversationId, u: int)
    requires u != caller && PromoteToAdmin(db, caller, c, u).outcome.Success?
    ensures var s := PromoteToAdmin(db, caller, c, u);
      DemoteFromAdmin(s.db, caller, c, u) == Response(Success(Done), db)
  {
    var s := PromoteToAdmin(db, caller, c, u);
    assert s.db.members[(c, u) := db.members[(c, u)]] == db.members;
  }

  /** Pinning a conversation twice gives back the store. */
  lemma PinConversationTwiceRestores(db: Db, caller: int, c: ConversationId)
    requires (c, caller) in db.members
    ensures var s := PinConversation(db, caller, c);
      PinConversation(s.db, caller, c).db == db
  {
    var s := PinConversation(db, caller, c);
    assert s.db.members[(c, caller) := db.members[(c, caller)]] == db.members;
  }

  /** Archiving a conversation twice gives back the store. */
  lemma ArchiveTwiceRestores(db: Db, caller: int, c: ConversationId)
    requires (c, caller) in db.members
    ensures var s := ArchiveConversation(db, caller, c);
      ArchiveConversation(s.db, caller, c).db == db
  {
    var s := ArchiveConversation(db, caller, c);
    assert s.db.members[(c, caller) := db.members[(c, caller)]] == db.members;
  }

  // ---------------------------------------------------------------------
  // The group actions keep the store valid.
  // ---------------------------------------------------------------------

  /** Writing a membership row for an existing conversation and user keeps
      the store valid. */
  lemma {:induction false} SetMemberKeepsValid(db: Db, c: ConversationId, u: UserId, m: Member)
    requires Valid(db) && c in db.conversations && u in db.users
    ensures Valid(SetMember(db, c, u, m))
  {
    var r := SetMember(db, c, u, m);
    assert r.members.Keys == db.members.Keys + {(c, u)};
    assert ForeignKeys(r);
    assert UserRefs(r);
  }

  /** Rewriting a row that exists keeps the store valid. */
  lemma RewriteMemberKeepsValid(db: Db, c: ConversationId, u: UserId, m: Member)
    requires Valid(db) && (c, u) in db.members
    ensures Valid(SetMember(db, c, u, m))
  {
    SetMemberKeepsValid(db, c, u, m);
  }

  lemma PinConversationKeepsValid(db: Db, caller: int, c: ConversationId)
    requires Valid(db)
    ensures Valid(PinConversation(db, caller, c).db)
  {
    if (c, caller) in db.members {
      var m := db.members[(c, caller)];
      RewriteMemberKeepsValid(db, c, caller, m.(isPinned := !m.isPinned));
    }
  }

  lemma ArchiveConversationKeepsValid(db: Db, caller: int, c: ConversationId)
    requires Valid(db)
    ensures Valid(ArchiveConversation(db, caller, c).db)
  {
    if (c, caller) in db.members {
      var m := db.members[(c, caller)];
      RewriteMemberKeepsValid(db, c, caller, m.(isArchived := !m.isArchived));
    }
  }

  lemma DeleteConversationKeepsValid(db: Db, caller: int, c: ConversationId, now: Time)
    requires Valid(db)
    ensures Valid(DeleteConversation(db, caller, c, now).db)
  {
    if (c, caller) in db.members {
      RewriteMemberKeepsValid(db, c, caller, db.members[(c, caller)].(deletedAt := Some(now)));
    }
  }

  lemma LeaveKeepsValid(db: Db, caller: int, c: ConversationId, now: Time)
    requires Valid(db)
    ensures Valid(LeaveGroup(db, caller, c, now).db)
  {
    var r := LeaveGroup(db, caller, c, now);
    if r.outcome.Success? {
      RewriteMemberKeepsValid(db, c, caller, db.members[(c, caller)].(deletedAt := Some(now)));
    }
  }

  lemma RemoveMemberKeepsValid(db: Db, caller: int, c: ConversationId, u: int, now: Time)
    requires Valid(db)
    ensures Valid(RemoveMember(db, caller, c, u, now).db)
  {
    if (c, u) in db.members {
      RewriteMemberKeepsValid(db, c, u, db.members[(c, u)].(deletedAt := Some(now)));
    }
  }

  lemma PromoteKeepsValid(db: Db, caller: int, c: ConversationId, u: int)
    requires Valid(db)
    ensures Valid(PromoteToAdmin(db, caller, c, u).db)
  {
    if (c, u) in db.members {
      RewriteMemberKeepsValid(db, c, u, db.members[(c, u)].(isAdmin := true));
    }
  }

  lemma DemoteKeepsValid(db: Db, caller: int, c: ConversationId, u: int)
    requires Valid(db)
    ensures Valid(DemoteFromAdmin(db, caller, c, u).db)
  {
    if (c, u) in db.members {
      RewriteMemberKeepsValid(db, c, u, db.members[(c, u)].(isAdmin := false));
    }
  }

  lemma {:induction false} AddMemberKeepsValid(db: Db, caller: int, c: ConversationId, u: int, now: Time)
    requires Valid(db)
    ensures Valid(AddMember(db, caller, c, u, now).db)
  {
    var r := AddMember(db, caller, c, u, now);
    if r.outcome.Success? {
      var row := if (c, u) in db.members then db.members[(c, u)].(deletedAt := None, joinedAt := now)
                 else NewMember(now, false);
      assert u in db.users by {
        if (c, u) in db.members { assert (c, u).1 in db.users; }
      }
      SetMemberKeepsValid(db, c, u, row);
      var db1 := SetMember(db, c, u, row);
      UpdateConversationKeepsValid(db1, c, db.conversations[c].(updatedAt := now));
      assert r.db == db1.(conversations := db1.conversations[c := db.conversations[c].(updatedAt := now)]);
    }
  }

  lemma RenameKeepsValid(db: Db, caller: int, c: ConversationId, newName: string, now: Time)
    requires Valid(db)
    ensures Valid(UpdateConversationName(db, caller, c, newName, now).db)
  {
    if c in db.conversations {
      UpdateConversationKeepsValid(db, c, db.conversations[c].(name := Some(Trim(DotNet, newName)), updatedAt := now));
    }
  }

  /** Creating a group keeps the store valid, including when an invitee
      without a user row leaves the group saved without members. */
  lemma {:induction false} CreateGroupKeepsValid(db: Db, caller: int, name: string, memberIds: seq<int>, now: Time)
    requires Valid(db)
    ensures Valid(CreateGroup(db, caller, name, memberIds, now).db)
  {
    var r := CreateGroup(db, caller, name, memberIds, now);
    if r.outcome.Success? {
      CreatedGroupKeepsValid(db, caller, name, memberIds, now);
    } else if r.outcome == Fault && caller in db.users {
      FaultedGroupKeepsValid(db, caller, name, memberIds, now);
    }
  }

  /** An invitee without a user row fails the second save; the group saved
      first stays, without members. */
  lemma {:induction false} FaultedGroupKeepsValid(db: Db, caller: int, name: string, memberIds: seq<int>, now: Time)
    requires Valid(db) && caller in db.users && CreateGroup(db, caller, name, memberIds, now).outcome == Fault
    ensures Valid(CreateGroup(db, caller, name, memberIds, now).db)
  {
    SaveGroupKeepsValid(db, caller, name, now);
  }

  lemma {:induction false} SaveGroupKeepsValid(db: Db, caller: UserId, name: string, now: Time)
    requires Valid(db) && caller in db.users
    ensures Valid(SaveGroup(db, caller, name, now))
  {
    var conv := Conversation(Some(Trim(DotNet, name)), true, caller, now, now);
    NewConversationKeepsValid(db, conv);
  }

  lemma {:induction false} CreatedGroupKeepsValid(db: Db, caller: int, name: string, memberIds: seq<int>, now: Time)
    requires Valid(db) && CreateGroup(db, caller, name, memberIds, now).outcome.Success?
    ensures Valid(CreateGroup(db, caller, name, memberIds, now).db)
  {
    var invitees := Invitees(memberIds, caller);
    GroupSavesKeepValid(db, caller, name, invitees, now);
  }

  /** Both saves of `CreateGroup` together keep the store valid when the
      creator and every invitee have user rows. */
  lemma {:induction false} GroupSavesKeepValid(db: Db, caller: UserId, name: string, invitees: set<UserId>, now: Time)
    requires Valid(db) && caller in db.users && caller !in invitees
    requires forall u :: u in invitees ==> u in db.users
    ensures Valid(AddGroupRows(SaveGroup(db, caller, name, now), db.nextConversationId, caller, invitees, now))
  {
    var c := db.nextConversationId;
    SaveGroupKeepsValid(db, caller, name, now);
    var db1 := SaveGroup(db, caller, name, now);
    var rows := GroupRows(c, caller, invitees, now);
    assert forall k :: k in rows ==> k.0 in db1.conversations && k.1 in db1.users;
    NewRowsKeepValid(db1, rows);
  }

  lemma {:induction false} NewConversationKeepsValid(db: Db, conv: Conversation)
    requires Valid(db) && conv.createdBy in db.users
    ensures Valid(db.(conversations := db.conversations[db.nextConversationId := conv],
                      nextConversationId := db.nextConversationId + 1))
  {
    var n := db.nextConversationId;
    NewConversationKeepsKeys(db, conv);
    NewConversationKeepsRefs(db, conv);
    assert db.(conversations := db.conversations[n := conv], nextConversationId := n + 1)
        == db.(conversations := db.conversations[db.nextConversationId := conv], nextConversationId := db.nextConversationId + 1);
  }

  lemma {:induction false} NewConversationKeepsKeys(db: Db, conv: Conversation)
    requires IdentitiesFresh(db) && ForeignKeys(db)
    ensures var n := db.nextConversationId;
      var r := db.(conversations := db.conversations[n := conv], nextConversationId := n + 1);
      IdentitiesFresh(r) && ForeignKeys(r)
  {
    var n := db.nextConversationId;
    var r := db.(conversations := db.conversations[n := conv], nextConversationId := n + 1);
    assert db.conversations.Keys <= r.conversations.Keys;
  }

  lemma {:induction false} NewConversationKeepsRefs(db: Db, conv: Conversation)
    requires UserRefs(db) && conv.createdBy in db.users
    ensures var n := db.nextConversationId;
      UserRefs(db.(conversations := db.conversations[n := conv], nextConversationId := n + 1))
  {
  }

  lemma {:induction false} NewRowsKeepValid(db: Db, rows: map<(ConversationId, UserId), Member>)
    requires Valid(db)
    requires forall k :: k in rows ==> k.0 in db.conversations && k.1 in db.users
    ensures Valid(db.(members := db.members + rows))
  {
    var r := db.(members := db.members + rows);
    assert ForeignKeys(r);
    assert UserRefs(r);
  }
}
