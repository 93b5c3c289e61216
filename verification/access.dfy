/** The base of every chat controller action: who the caller is, the
    authentication gate in front of each action, the authorisation
    predicates the actions consult, and the shape of an action's answer. */
module Access {
  import opened Optional
  import opened Store

  /** The server-side session. Only its `UserId` entry decides anything; the
      name and avatar entries feed views. */
  datatype Session = Session(userId: Option<int>)

  /** `CurrentUserId`: the session's `UserId`, or 0 when there is none. */
  function CurrentUserId(s: Session): (id: int)
    ensures s.userId.Some? ==> id == s.userId.value
    ensures id == 0 <==> (s.userId.None? || s.userId == Some(0))
  {
    match s.userId
    case None => 0
    case Some(v) => v
  }

  /** `IsAuthenticated`: the session holds a `UserId`, whatever its value. */
  predicate IsAuthenticated(s: Session) {
    s.userId.Some?
  }

  /** The decision `OnActionExecuting` takes before every action. */
  datatype Gate = RedirectToLogin | Proceed(userId: int)

  function OnActionExecuting(s: Session): (g: Gate)
    ensures g.RedirectToLogin? <==> s.userId.None?
    ensures g.Proceed? ==> g.userId == CurrentUserId(s)
  {
    if !IsAuthenticated(s) then RedirectToLogin else Proceed(CurrentUserId(s))
  }

  /** `IsFriendAsync(u1, u2)`: the directed edge u1 -> u2 exists. */
  predicate IsFriend(db: Db, u1: UserId, u2: UserId) {
    (u1, u2) in db.friends
  }

  /** `IsConversationAdminAsync`: the (conversation, user) row exists and is
      flagged admin; its soft-deletion is not consulted. */
  predicate IsConversationAdmin(db: Db, c: ConversationId, u: UserId) {
    (c, u) in db.members && db.members[(c, u)].isAdmin
  }

  /** `IsConversationMemberAsync`: some (conversation, user) row exists,
      soft-deleted or not. */
  predicate IsConversationMember(db: Db, c: ConversationId, u: UserId) {
    (c, u) in db.members
  }

  /** Soft-deleting a membership row changes neither authorisation answer:
      a member who left or was removed still passes both checks. */
  lemma SoftDeleteKeepsAuthorisation(db: Db, c: ConversationId, u: UserId, t: Time)
    requires (c, u) in db.members
    ensures var db' := db.(members := db.members[(c, u) := db.members[(c, u)].(deletedAt := Some(t))]);
      && IsConversationMember(db', c, u) && !IsActive(db', c, u)
      && (IsConversationAdmin(db', c, u) <==> IsConversationAdmin(db, c, u))
  {
  }

  /** The friend test looks at one direction only; in a valid store the
      edges come in pairs, so the direction does not matter there. */
  lemma FriendTestDirected()
    ensures var db := EmptyDb().(friends := {(1, 2)});
      IsFriend(db, 1, 2) && !IsFriend(db, 2, 1)
  {
  }

  lemma FriendSymmetricWhenValid(db: Db, u1: UserId, u2: UserId)
    requires Valid(db)
    ensures IsFriend(db, u1, u2) <==> IsFriend(db, u2, u1)
  {
    if IsFriend(db, u1, u2) {
      assert (u1, u2) in db.friends;
    }
    if IsFriend(db, u2, u1) {
      assert (u2, u1) in db.friends;
    }
  }

  /** Why an action refused, one value per distinct message the actions
      return. */
  datatype Reason =
    | MessageNotFound
    | NotMessageSender
    | EmptyText
    | NotAdmin
    | NotMember
    | GroupNotFound
    | EmptyGroupName
    | NoMembersChosen
    | GroupTooSmall
    | AlreadyMember
    | CannotRemoveSelf
    | MemberNotFound
    | SoleAdmin
    | AlreadyAdmin
    | CannotDemoteSelf
    | NotAnAdmin
    | CannotBefriendSelf
    | UserNotFound
    | AlreadyFriends
    | RequestAlreadySent
    | RequestNotFound
    | AlreadySaved
    | NotSaved

  /** The relationship between the caller and another user, as search
      results report it. */
  datatype Relationship = IsFriendOf | RequestSent | RequestReceived | NoRelation

  /** What a successful action reports beyond success. */
  datatype Info =
    | Done
    | PinState(isPinned: bool)
    | ArchiveState(isArchived: bool)
    | ReactionState(removed: bool)
    | GroupCreated(conversationId: ConversationId)
    | NowRelated(status: Relationship)

  /** `Fault` is an unhandled exception: a save refused by a foreign key the
      action does not check first. Whatever an earlier save in the same
      action wrote stays written. */
  datatype Outcome = Success(info: Info) | Failure(reason: Reason) | Fault

  /** An action's JSON answer together with the store it leaves. */
  datatype Response = Response(outcome: Outcome, db: Db)

  function Reject(db: Db, why: Reason): Response {
    Response(Failure(why), db)
  }
}
