/** Friendship: the relationship status search results report, and the
    send, cancel and accept actions on friend requests. Accepting a request,
    directly or by sending one back, makes the two users friends in both
    directions and opens a one-to-one conversation between them. */
module FriendActions {
  import opened Optional
  import opened Store
  import opened Access
  import GroupActions

  /** `GetRelationshipStatus`: how `u` relates to the caller, asking in
      order whether they are a friend, whether the caller has a pending
      request to them, and whether they have one to the caller. */
  function RelationshipStatus(db: Db, caller: UserId, u: UserId): (s: Relationship)
    ensures s == IsFriendOf <==> IsFriend(db, caller, u)
    ensures s == RequestSent <==> !IsFriend(db, caller, u) && IsPending(db, caller, u)
    ensures s == RequestReceived <==>
      !IsFriend(db, caller, u) && !IsPending(db, caller, u) && IsPending(db, u, caller)
  {
    if IsFriend(db, caller, u) then IsFriendOf
    else if IsPending(db, caller, u) then RequestSent
    else if IsPending(db, u, caller) then RequestReceived
    else NoRelation
  }

  /** In a valid store at most one relationship holds between two users, so
      the order in which the status is asked does not matter. */
  lemma {:induction false} StatusUnambiguous(db: Db, caller: UserId, u: UserId)
    requires Valid(db)
    ensures var s := RelationshipStatus(db, caller, u);
      && (s == IsFriendOf <==> IsFriend(db, caller, u))
      && (s == RequestSent <==> IsPending(db, caller, u))
      && (s == RequestReceived <==> IsPending(db, u, caller))
      && (s == NoRelation <==> !IsFriend(db, caller, u) && !IsPending(db, caller, u) && !IsPending(db, u, caller))
  {
    if IsPending(db, caller, u) {
      assert (caller, u) in db.requests;
    }
    if IsPending(db, u, caller) {
      assert (u, caller) in db.requests;
      assert (u, caller) !in db.friends;
    }
  }

  /** In a valid store the status is the mirror image of the one the other
      user sees. */
  lemma {:induction false} StatusMirrors(db: Db, a: UserId, b: UserId)
    requires Valid(db)
    ensures RelationshipStatus(db, b, a) == Mirror(RelationshipStatus(db, a, b))
  {
    StatusUnambiguous(db, a, b);
    StatusUnambiguous(db, b, a);
    FriendSymmetricWhenValid(db, a, b);
  }

  function Mirror(s: Relationship): Relationship {
    match s
    case IsFriendOf => IsFriendOf
    case RequestSent => RequestReceived
    case RequestReceived => RequestSent
    case NoRelation => NoRelation
  }

  // ---------------------------------------------------------------------
  // Accepting a request
  // ---------------------------------------------------------------------

  /** The conversation an acceptance opens: one-to-one, unnamed, created by
      the user who accepts. */
  function DirectConversation(caller: UserId, now: Time): Conversation {
    Conversation(None, false, caller, now, now)
  }

  /** The first save of an acceptance: the request becomes accepted, both
      friend edges and the conversation are added. */
  function AcceptanceSaved(db: Db, caller: UserId, other: UserId, now: Time): (r: Db)
    requires (other, caller) in db.requests
    ensures (other, caller) in r.requests && r.requests[(other, caller)].status == Accepted
    ensures r.friends == db.friends + {(caller, other), (other, caller)}
    ensures r.conversations == db.conversations[db.nextConversationId := DirectConversation(caller, now)]
    ensures r.nextConversationId == db.nextConversationId + 1
  {
    var q := db.requests[(other, caller)];
    db.(requests := db.requests[(other, caller) := FriendRequest(Accepted, q.sentAt, Some(now))],
        friends := db.friends + {(caller, other), (other, caller)},
        conversations := db.conversations[db.nextConversationId := DirectConversation(caller, now)],
        nextConversationId := db.nextConversationId + 1)
  }

  /** The accept path shared by `AcceptFriendRequest` and by
      `SendFriendRequest` when the other user has already asked: a first
      save of the request, the friend edges and the conversation, then a
      second save of the two member rows and the notification to `other`.
      The first save fails on an edge that already exists, a user without a
      row, or a request from a user to themselves, and writes nothing; the
      second fails on a member row that already exists, leaving the first
      written. */
  function Befriend(db: Db, caller: UserId, other: UserId, now: Time): (r: Response)
    requires IsPending(db, other, caller)
    ensures r.outcome.Success? || r.outcome == Fault
    ensures r.outcome.Success? <==>
      && caller != other && caller in db.users && other in db.users
      && (caller, other) !in db.friends && (other, caller) !in db.friends
      && (db.nextConversationId, caller) !in db.members && (db.nextConversationId, other) !in db.members
    ensures r.outcome.Success? ==>
      var c := db.nextConversationId;
      && r.outcome.info == NowRelated(IsFriendOf)
      && IsFriend(r.db, caller, other) && IsFriend(r.db, other, caller)
      && !IsPending(r.db, other, caller)
      && c in r.db.conversations && r.db.conversations[c] == DirectConversation(caller, now)
      && IsActive(r.db, c, caller) && IsActive(r.db, c, other)
      && !r.db.members[(c, caller)].isAdmin && !r.db.members[(c, other)].isAdmin
      && r.db.notifications == db.notifications + [Notification(other, FriendRequestAccepted, now, false)]
    ensures r.outcome.Success? ==>
      var c := db.nextConversationId;
      && (other, caller) in r.db.requests
      && r.db.requests[(other, caller)].status == Accepted
      && r.db.requests[(other, caller)].respondedAt == Some(now)
      && r.db.requests.Keys == db.requests.Keys
      && (forall k :: k in db.requests && k != (other, caller) ==> r.db.requests[k] == db.requests[k])
      && r.db.friends == db.friends + {(caller, other), (other, caller)}
      && r.db.conversations == db.conversations[c := DirectConversation(caller, now)]
      && r.db.nextConversationId == c + 1
      && r.db.members.Keys == db.members.Keys + {(c, caller), (c, other)}
      && (forall k :: k in db.members ==> r.db.members[k] == db.members[k])
      && r.db.users == db.users && r.db.nextUserId == db.nextUserId
      && r.db.messages == db.messages && r.db.nextMessageId == db.nextMessageId
      && r.db.edits == db.edits && r.db.reactions == db.reactions && r.db.saved == db.saved
    ensures r.outcome == Fault ==> r.db == db || r.db == AcceptanceSaved(db, caller, other, now)
  {
    var c := db.nextConversationId;
    if caller == other || caller !in db.users || other !in db.users
      || (caller, other) in db.friends || (other, caller) in db.friends
    then Response(Fault, db)
    else
      var saved := AcceptanceSaved(db, caller, other, now);
      if (c, caller) in db.members || (c, other) in db.members then Response(Fault, saved)
      else
        Response(Success(NowRelated(IsFriendOf)),
          saved.(members := saved.members[(c, caller) := NewMember(now, false)][(c, other) := NewMember(now, false)],
                 notifications := saved.notifications + [Notification(other, FriendRequestAccepted, now, false)]))
  }

  /** `AcceptFriendRequest(senderId)`: the caller accepts a pending request
      from `sender`. Whether they are friends already is not asked. */
  function AcceptFriendRequest(db: Db, caller: int, sender: UserId, now: Time): (r: Response)
    ensures r.outcome == Failure(RequestNotFound) <==> !IsPending(db, sender, caller)
    ensures r.outcome.Failure? ==> r.db == db
    ensures r.outcome.Success? ==>
      && IsPending(db, sender, caller)
      && r.outcome.info == NowRelated(IsFriendOf)
      && IsFriend(r.db, caller, sender) && IsFriend(r.db, sender, caller)
    ensures IsPending(db, sender, caller) ==> r == Befriend(db, caller, sender, now)
  {
    if !IsPending(db, sender, caller) then Reject(db, RequestNotFound)
    else Befriend(db, caller, sender, now)
  }

  // ---------------------------------------------------------------------
  // Sending and cancelling
  // ---------------------------------------------------------------------

  /** `SendFriendRequest(receiverId)`: refuses the caller themselves, an
      unknown user, a friend and a repeated request; accepts when the
      receiver has already asked; otherwise adds a pending request and a
      notification to the receiver. A new request clashes with the unique
      index when an older, non-pending request under the same key exists. */
  function SendFriendRequest(db: Db, caller: int, receiver: UserId, now: Time): (r: Response)
    ensures r.outcome == Failure(CannotBefriendSelf) <==> receiver == caller
    ensures r.outcome == Failure(UserNotFound) <==> receiver != caller && receiver !in db.users
    ensures r.outcome == Failure(AlreadyFriends) <==>
      receiver != caller && receiver in db.users && IsFriend(db, caller, receiver)
    ensures r.outcome == Failure(RequestAlreadySent) <==>
      receiver != caller && receiver in db.users && !IsFriend(db, caller, receiver) && IsPending(db, caller, receiver)
    ensures r.outcome.Failure? ==> r.db == db
    ensures r.outcome.Success? ==>
      && receiver != caller && receiver in db.users && !IsFriend(db, caller, receiver)
      && r.outcome.info.NowRelated?
      && (r.outcome.info.status == IsFriendOf <==> IsPending(db, receiver, caller))
      && (r.outcome.info.status == IsFriendOf || r.outcome.info.status == RequestSent)
    ensures (&& receiver != caller && receiver in db.users && !IsFriend(db, caller, receiver)
             && !IsPending(db, caller, receiver) && IsPending(db, receiver, caller))
      ==> r == Befriend(db, caller, receiver, now)
    ensures (&& receiver != caller && receiver in db.users && !IsFriend(db, caller, receiver)
             && !IsPending(db, caller, receiver) && !IsPending(db, receiver, caller))
      ==> && (r.outcome == Success(NowRelated(RequestSent)) <==> caller in db.users && (caller, receiver) !in db.requests)
          && (r.outcome == Fault <==> caller !in db.users || (caller, receiver) in db.requests)
          && (r.outcome == Fault ==> r.db == db)
    ensures r.outcome == Success(NowRelated(RequestSent)) ==>
      && (caller, receiver) !in db.requests
      && r.db == db.(requests := db.requests[(caller, receiver) := FriendRequest(Pending, now, None)],
                     notifications := db.notifications + [Notification(receiver, FriendRequestSent, now, false)])
  {
    if receiver == caller then Reject(db, CannotBefriendSelf)
    else if receiver !in db.users then Reject(db, UserNotFound)
    else if IsFriend(db, caller, receiver) then Reject(db, AlreadyFriends)
    else if IsPending(db, caller, receiver) then Reject(db, RequestAlreadySent)
    else if IsPending(db, receiver, caller) then Befriend(db, caller, receiver, now)
    else if caller !in db.users || (caller, receiver) in db.requests then Response(Fault, db)
    else
      Response(Success(NowRelated(RequestSent)),
        db.(requests := db.requests[(caller, receiver) := FriendRequest(Pending, now, None)],
            notifications := db.notifications + [Notification(receiver, FriendRequestSent, now, false)]))
  }

  /** `CancelFriendRequest(receiverId)`: deletes the caller's pending
      request to `receiver`. */
  function CancelFriendRequest(db: Db, caller: int, receiver: UserId): (r: Response)
    ensures r.outcome == Failure(RequestNotFound) <==> !IsPending(db, caller, receiver)
    ensures r.outcome.Success? <==> IsPending(db, caller, receiver)
    ensures r.outcome.Failure? ==> r.db == db
    ensures r.outcome.Success? ==>
      && IsPending(db, caller, receiver)
      && r.outcome.info == NowRelated(NoRelation)
      && (caller, receiver) !in r.db.requests
      && r.db == db.(requests := r.db.requests)
      && (forall k :: k in r.db.requests <==> k in db.requests && k != (caller, receiver))
  {
    if !IsPending(db, caller, receiver) then Reject(db, RequestNotFound)
    else Response(Success(NowRelated(NoRelation)), db.(requests := db.requests - {(caller, receiver)}))
  }

  // ---------------------------------------------------------------------
  // What the actions report, and what they keep
  // ---------------------------------------------------------------------

  /** The status each successful action reports is the status a search
      made right after it would show. */
  lemma {:induction false} ReportedStatusHolds(db: Db, caller: int, u: UserId, now: Time)
    requires Valid(db)
    ensures var r := SendFriendRequest(db, caller, u, now);
      r.outcome.Success? ==> RelationshipStatus(r.db, caller, u) == r.outcome.info.status
    ensures var r := AcceptFriendRequest(db, caller, u, now);
      r.outcome.Success? ==> RelationshipStatus(r.db, caller, u) == r.outcome.info.status
    ensures var r := CancelFriendRequest(db, caller, u);
      r.outcome.Success? ==> RelationshipStatus(r.db, caller, u) == r.outcome.info.status
  {
    var r := CancelFriendRequest(db, caller, u);
    if r.outcome.Success? {
      assert (caller, u) in db.requests;
      assert !IsPending(db, u, caller);
      assert !IsFriend(db, caller, u);
    }
  }

  /** In a valid store accepting a pending request never faults. */
  lemma {:induction false} AcceptNeverFaults(db: Db, caller: int, sender: UserId, now: Time)
    requires Valid(db) && IsPending(db, sender, caller)
    ensures AcceptFriendRequest(db, caller, sender, now).outcome.Success?
  {
    assert (sender, caller) in db.requests;
    assert (sender, caller) !in db.friends;
    assert (caller, sender) !in db.friends;
    NoRowsForNextConversation(db);
  }

  /** In a valid store an acceptance opens a conversation whose members
      are exactly the two users, both active and neither an admin. */
  lemma {:induction false} AcceptanceMembership(db: Db, caller: UserId, other: UserId, now: Time)
    requires Valid(db) && IsPending(db, other, caller)
    ensures var r := Befriend(db, caller, other, now); var c := db.nextConversationId;
      && r.outcome.Success?
      && GroupActions.MembersOf(r.db, c) == {caller, other}
      && (forall u :: u in GroupActions.MembersOf(r.db, c) ==> IsActive(r.db, c, u) && !r.db.members[(c, u)].isAdmin)
  {
    AcceptNeverFaults(db, caller, other, now);
    assert Befriend(db, caller, other, now).db == Befriended(db, caller, other, now);
    NoRowsForNextConversation(db);
    BefriendedMembers(db, caller, other, now);
  }

  lemma {:induction false} BefriendedMembers(db: Db, caller: UserId, other: UserId, now: Time)
    requires (other, caller) in db.requests
    requires forall k :: k in db.members ==> k.0 != db.nextConversationId
    ensures var r := Befriended(db, caller, other, now); var c := db.nextConversationId;
      && GroupActions.MembersOf(r, c) == {caller, other}
      && (forall u :: u in GroupActions.MembersOf(r, c) ==> IsActive(r, c, u) && !r.members[(c, u)].isAdmin)
  {
    var r := Befriended(db, caller, other, now);
    assert GroupActions.MembersOf(r, db.nextConversationId) == {caller, other};
  }

  /** In a valid store, sending a request to a user who has already asked
      the caller does exactly what accepting that user's request does. */
  lemma {:induction false} CrossedSendAccepts(db: Db, caller: UserId, other: UserId, now: Time)
    requires Valid(db) && IsPending(db, other, caller)
    ensures SendFriendRequest(db, caller, other, now) == AcceptFriendRequest(db, caller, other, now)
  {
    assert (other, caller) in db.requests;
    assert other != caller && other in db.users;
    assert (caller, other) !in db.friends;
    assert !IsPending(db, caller, other);
  }

  lemma NoRowsForNextConversation(db: Db)
    requires Valid(db)
    ensures forall k :: k in db.members ==> k.0 != db.nextConversationId
  {
    forall k | k in db.members ensures k.0 != db.nextConversationId {
      assert k.0 in db.conversations;
    }
  }

  /** Sending a new request and cancelling it leaves only the
      notification behind. */
  lemma SendThenCancelLeavesNotification(db: Db, caller: int, receiver: UserId, now: Time)
    requires SendFriendRequest(db, caller, receiver, now).outcome == Success(NowRelated(RequestSent))
    ensures var s := SendFriendRequest(db, caller, receiver, now);
      var t := CancelFriendRequest(s.db, caller, receiver);
      && t.outcome.Success?
      && t.db == db.(notifications := db.notifications + [Notification(receiver, FriendRequestSent, now, false)])
  {
    var s := SendFriendRequest(db, caller, receiver, now);
    assert s.db.requests - {(caller, receiver)} == db.requests;
  }

  /** The store a successful acceptance leaves, written out. */
  function Befriended(db: Db, caller: UserId, other: UserId, now: Time): Db
    requires (other, caller) in db.requests
  {
    var c := db.nextConversationId;
    var saved := AcceptanceSaved(db, caller, other, now);
    saved.(members := saved.members[(c, caller) := NewMember(now, false)][(c, other) := NewMember(now, false)],
           notifications := saved.notifications + [Notification(other, FriendRequestAccepted, now, false)])
  }

  /** Accepting a pending request keeps the store valid. */
  lemma {:induction false} BefriendKeepsValid(db: Db, caller: UserId, other: UserId, now: Time)
    requires Valid(db) && IsPending(db, other, caller)
    ensures Valid(Befriend(db, caller, other, now).db)
  {
    AcceptNeverFaults(db, caller, other, now);
    assert Befriend(db, caller, other, now).db == Befriended(db, caller, other, now);
    BefriendedKeepsTables(db, caller, other, now);
    BefriendedKeepsRequests(db, caller, other, now);
  }

  lemma {:induction false} BefriendedKeepsTables(db: Db, caller: UserId, other: UserId, now: Time)
    requires Valid(db) && IsPending(db, other, caller)
    ensures var r := Befriended(db, caller, other, now);
      IdentitiesFresh(r) && UsersUnique(r) && ForeignKeys(r) && UserRefs(r) && MessageFlagsAgree(r) && FriendsSymmetric(r)
  {
    assert (other, caller) in db.requests;
    BefriendedKeepsKeys(db, caller, other, now);
    BefriendedKeepsRefs(db, caller, other, now);
    BefriendedKeepsRows(db, caller, other, now);
  }

  lemma {:induction false} BefriendedKeepsRows(db: Db, caller: UserId, other: UserId, now: Time)
    requires UsersUnique(db) && MessageFlagsAgree(db) && FriendsSymmetric(db) && (other, caller) in db.requests
    ensures var r := Befriended(db, caller, other, now);
      UsersUnique(r) && MessageFlagsAgree(r) && FriendsSymmetric(r)
  {
    var r := Befriended(db, caller, other, now);
    assert r.users == db.users && r.messages == db.messages;
  }

  lemma {:induction false} BefriendedKeepsKeys(db: Db, caller: UserId, other: UserId, now: Time)
    requires IdentitiesFresh(db) && ForeignKeys(db) && (other, caller) in db.requests
    ensures var r := Befriended(db, caller, other, now);
      IdentitiesFresh(r) && ForeignKeys(r)
  {
    var c := db.nextConversationId;
    var r := Befriended(db, caller, other, now);
    assert r.conversations.Keys == db.conversations.Keys + {c};
    assert r.members.Keys == db.members.Keys + {(c, caller), (c, other)};
    assert IdentitiesFresh(r);
    assert ForeignKeys(r);
  }

  lemma {:induction false} BefriendedKeepsRefs(db: Db, caller: UserId, other: UserId, now: Time)
    requires UserRefs(db) && (other, caller) in db.requests && caller in db.users && other in db.users
    ensures UserRefs(Befriended(db, caller, other, now))
  {
    var c := db.nextConversationId;
    var r := Befriended(db, caller, other, now);
    assert r.users == db.users && r.messages == db.messages && r.reactions == db.reactions && r.saved == db.saved;
    assert r.members.Keys == db.members.Keys + {(c, caller), (c, other)};
    assert r.requests.Keys == db.requests.Keys;
    assert r.friends == db.friends + {(caller, other), (other, caller)};
    assert forall i :: 0 <= i < |db.notifications| ==> r.notifications[i] == db.notifications[i];
  }

  lemma {:induction false} BefriendedKeepsRequests(db: Db, caller: UserId, other: UserId, now: Time)
    requires RequestsAgree(db) && IsPending(db, other, caller)
    ensures RequestsAgree(Befriended(db, caller, other, now))
  {
    var r := Befriended(db, caller, other, now);
    assert (other, caller) in db.requests;
    forall k | k in r.requests
      ensures k.0 != k.1
      ensures r.requests[k].status == Pending ==> k !in r.friends
      ensures r.requests[k].status == Accepted ==> k in r.friends
      ensures r.requests[k].status == Pending ==> !IsPending(r, k.1, k.0)
    {
      assert k in db.requests;
      if k != (other, caller) {
        assert r.requests[k] == db.requests[k];
        if r.requests[k].status == Pending {
          assert k != (caller, other);
        }
      }
    }
  }

  /** Each friend action keeps the store valid. */
  lemma {:induction false} SendKeepsValid(db: Db, caller: int, u: UserId, now: Time)
    requires Valid(db)
    ensures Valid(SendFriendRequest(db, caller, u, now).db)
  {
    var s := SendFriendRequest(db, caller, u, now);
    if s.outcome == Success(NowRelated(RequestSent)) {
      NewRequestKeepsValid(db, caller, u, now);
    } else if IsPending(db, u, caller) {
      BefriendKeepsValid(db, caller, u, now);
    }
  }

  lemma {:induction false} AcceptKeepsValid(db: Db, caller: int, u: UserId, now: Time)
    requires Valid(db)
    ensures Valid(AcceptFriendRequest(db, caller, u, now).db)
  {
    if IsPending(db, u, caller) {
      BefriendKeepsValid(db, caller, u, now);
    }
  }

  lemma {:induction false} NewRequestKeepsValid(db: Db, caller: int, u: UserId, now: Time)
    requires Valid(db)
    requires SendFriendRequest(db, caller, u, now).outcome == Success(NowRelated(RequestSent))
    ensures Valid(SendFriendRequest(db, caller, u, now).db)
  {
    assert !IsPending(db, u, caller);
    PendingRowKeepsRefs(db, caller, u, now);
    PendingRowKeepsRequests(db, caller, u, now);
    assert SendFriendRequest(db, caller, u, now).db == WithRequest(db, caller, u, now);
  }

  /** The store after `caller` asks `u`: the pending row and the
      receiver's notification. */
  function WithRequest(db: Db, caller: int, u: UserId, now: Time): Db {
    db.(requests := db.requests[(caller, u) := FriendRequest(Pending, now, None)],
        notifications := db.notifications + [Notification(u, FriendRequestSent, now, false)])
  }

  lemma {:induction false} PendingRowKeepsRefs(db: Db, caller: int, u: UserId, now: Time)
    requires UserRefs(db) && caller in db.users && u in db.users
    ensures UserRefs(WithRequest(db, caller, u, now))
  {
    var r := WithRequest(db, caller, u, now);
    assert forall i :: 0 <= i < |db.notifications| ==> r.notifications[i] == db.notifications[i];
  }

  lemma {:induction false} PendingRowKeepsRequests(db: Db, caller: int, u: UserId, now: Time)
    requires RequestsAgree(db) && caller != u && (caller, u) !in db.friends
    requires !IsPending(db, u, caller) && (caller, u) !in db.requests
    ensures RequestsAgree(WithRequest(db, caller, u, now))
  {
    var r := WithRequest(db, caller, u, now);
    forall k | k in r.requests
      ensures k.0 != k.1
      ensures r.requests[k].status == Pending ==> k !in r.friends
      ensures r.requests[k].status == Accepted ==> k in r.friends
      ensures r.requests[k].status == Pending ==> !IsPending(r, k.1, k.0)
    {
      if k != (caller, u) {
        assert r.requests[k] == db.requests[k];
        if r.requests[k].status == Pending {
          assert k != (u, caller);
        }
      }
    }
  }

  lemma {:induction false} CancelKeepsValid(db: Db, caller: int, u: UserId)
    requires Valid(db)
    ensures Valid(CancelFriendRequest(db, caller, u).db)
  {
    var r := CancelFriendRequest(db, caller, u).db;
    assert UserRefs(r);
    assert RequestsAgree(r) by {
      forall k | k in r.requests
        ensures r.requests[k].status == Pending ==> !IsPending(r, k.1, k.0)
      {
        assert k in db.requests && r.requests[k] == db.requests[k];
      }
    }
  }
}
