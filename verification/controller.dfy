/** The chat controller as a whole: every modelled POST action behind the
    authentication gate of `OnActionExecuting`, and what holds across all
    of them. */
module Controller {
  import opened Optional
  import opened Store
  import opened Text
  import opened Access
  import MessageActions
  import GroupActions
  import GroupProperties
  import FriendActions
  import ChatHub
  import HubProperties

  /** A request to one of the controller's message actions. */
  datatype MessageRequest =
    | EditMessage(messageId: MessageId, newText: string)
    | DeleteMessage(messageId: MessageId)
    | PinMessage(messageId: MessageId)
    | ReactMessage(messageId: MessageId, reactionType: string)
    | SaveMessage(messageId: MessageId, note: Option<string>)
    | UnsaveMessage(messageId: MessageId)

  /** A request about the caller's own view of a conversation. */
  datatype ConversationRequest =
    | PinConversation(conversationId: ConversationId)
    | ArchiveConversation(conversationId: ConversationId)
    | DeleteConversation(conversationId: ConversationId)
    | LeaveGroup(conversationId: ConversationId)

  /** A request that creates or administers a group. */
  datatype GroupRequest =
    | CreateGroup(groupName: string, memberIds: seq<int>)
    | UpdateConversationName(conversationId: ConversationId, newName: string)
    | AddMember(conversationId: ConversationId, userId: int)
    | RemoveMember(conversationId: ConversationId, userId: int)
    | PromoteToAdmin(conversationId: ConversationId, userId: int)
    | DemoteFromAdmin(conversationId: ConversationId, userId: int)

  datatype FriendshipRequest =
    | SendFriendRequest(receiverId: int)
    | CancelFriendRequest(receiverId: int)
    | AcceptFriendRequest(senderId: int)

  /** A request to one of the controller's actions with its form fields. */
  datatype Action =
    | OnMessage(message: MessageRequest)
    | OnConversation(conversation: ConversationRequest)
    | OnGroup(group: GroupRequest)
    | OnFriendship(friendship: FriendshipRequest)

  /** Runs an action for the caller the session names. */
  function Perform(db: Db, caller: int, a: Action, now: Time): Response {
    match a
    case OnMessage(m) => PerformMessage(db, caller, m, now)
    case OnConversation(q) => PerformConversation(db, caller, q, now)
    case OnGroup(g) => PerformGroup(db, caller, g, now)
    case OnFriendship(f) => PerformFriendship(db, caller, f, now)
  }

  function PerformMessage(db: Db, caller: int, a: MessageRequest, now: Time): Response {
    match a
    case EditMessage(id, text) => MessageActions.EditMessage(db, caller, id, text, now)
    case DeleteMessage(id) => MessageActions.DeleteMessage(db, caller, id, now)
    case PinMessage(id) => MessageActions.PinMessage(db, caller, id, now)
    case ReactMessage(id, kind) => MessageActions.ReactMessage(db, caller, id, kind, now)
    case SaveMessage(id, note) => MessageActions.SaveMessage(db, caller, id, note, now)
    case UnsaveMessage(id) => MessageActions.UnsaveMessage(db, caller, id)
  }

  function PerformConversation(db: Db, caller: int, a: ConversationRequest, now: Time): Response {
    match a
    case PinConversation(c) => GroupActions.PinConversation(db, caller, c)
    case ArchiveConversation(c) => GroupActions.ArchiveConversation(db, caller, c)
    case DeleteConversation(c) => GroupActions.DeleteConversation(db, caller, c, now)
    case LeaveGroup(c) => GroupActions.LeaveGroup(db, caller, c, now)
  }

  function PerformGroup(db: Db, caller: int, a: GroupRequest, now: Time): Response {
    match a
    case CreateGroup(name, ids) => GroupActions.CreateGroup(db, caller, name, ids, now)
    case UpdateConversationName(c, name) => GroupActions.UpdateConversationName(db, caller, c, name, now)
    case AddMember(c, u) => GroupActions.AddMember(db, caller, c, u, now)
    case RemoveMember(c, u) => GroupActions.RemoveMember(db, caller, c, u, now)
    case PromoteToAdmin(c, u) => GroupActions.PromoteToAdmin(db, caller, c, u)
    case DemoteFromAdmin(c, u) => GroupActions.DemoteFromAdmin(db, caller, c, u)
  }

  function PerformFriendship(db: Db, caller: int, a: FriendshipRequest, now: Time): Response {
    match a
    case SendFriendRequest(u) => FriendActions.SendFriendRequest(db, caller, u, now)
    case CancelFriendRequest(u) => FriendActions.CancelFriendRequest(db, caller, u)
    case AcceptFriendRequest(u) => FriendActions.AcceptFriendRequest(db, caller, u, now)
  }

  datatype Reply = RedirectedToLogin | Answered(outcome: Outcome)

  /** A request as the framework runs it: the gate first, then the action
      with `CurrentUserId` as the caller. */
  function Dispatch(db: Db, s: Session, a: Action, now: Time): (r: (Reply, Db))
    ensures !IsAuthenticated(s) <==> r.0 == RedirectedToLogin
    ensures !IsAuthenticated(s) ==> r.1 == db
    ensures IsAuthenticated(s) ==>
      (r.0 == Answered(Perform(db, s.userId.value, a, now).outcome) && r.1 == Perform(db, s.userId.value, a, now).db)
  {
    match OnActionExecuting(s)
    case RedirectToLogin => (RedirectedToLogin, db)
    case Proceed(caller) =>
      var resp := Perform(db, caller, a, now);
      (Answered(resp.outcome), resp.db)
  }

  /** Every action keeps the store valid, whoever calls it and whatever
      it answers, faults included. */
  lemma {:induction false} PerformKeepsValid(db: Db, caller: int, a: Action, now: Time)
    requires Valid(db)
    ensures Valid(Perform(db, caller, a, now).db)
  {
    match a
    case OnMessage(m) => MessageRequestKeepsValid(db, caller, m, now);
    case OnConversation(q) => ConversationRequestKeepsValid(db, caller, q, now);
    case OnGroup(g) => GroupRequestKeepsValid(db, caller, g, now);
    case OnFriendship(f) => FriendshipRequestKeepsValid(db, caller, f, now);
  }

  lemma {:induction false} MessageRequestKeepsValid(db: Db, caller: int, a: MessageRequest, now: Time)
    requires Valid(db)
    ensures Valid(PerformMessage(db, caller, a, now).db)
  {
    match a
    case EditMessage(id, text) => MessageActions.EditKeepsValid(db, caller, id, text, now);
    case DeleteMessage(id) => MessageActions.DeleteKeepsValid(db, caller, id, now);
    case PinMessage(id) => MessageActions.PinKeepsValid(db, caller, id, now);
    case ReactMessage(id, kind) => MessageActions.ReactKeepsValid(db, caller, id, kind, now);
    case SaveMessage(id, note) => MessageActions.SaveKeepsValid(db, caller, id, note, now);
    case UnsaveMessage(id) => MessageActions.UnsaveKeepsValid(db, caller, id);
  }

  lemma {:induction false} ConversationRequestKeepsValid(db: Db, caller: int, a: ConversationRequest, now: Time)
    requires Valid(db)
    ensures Valid(PerformConversation(db, caller, a, now).db)
  {
    match a
    case PinConversation(c) => GroupProperties.PinConversationKeepsValid(db, caller, c);
    case ArchiveConversation(c) => GroupProperties.ArchiveConversationKeepsValid(db, caller, c);
    case DeleteConversation(c) => GroupProperties.DeleteConversationKeepsValid(db, caller, c, now);
    case LeaveGroup(c) => GroupProperties.LeaveKeepsValid(db, caller, c, now);
  }

  lemma {:induction false} GroupRequestKeepsValid(db: Db, caller: int, a: GroupRequest, now: Time)
    requires Valid(db)
    ensures Valid(PerformGroup(db, caller, a, now).db)
  {
    match a
    case CreateGroup(name, ids) => GroupProperties.CreateGroupKeepsValid(db, caller, name, ids, now);
    case UpdateConversationName(c, name) => GroupProperties.RenameKeepsValid(db, caller, c, name, now);
    case AddMember(c, u) => GroupProperties.AddMemberKeepsValid(db, caller, c, u, now);
    case RemoveMember(c, u) => GroupProperties.RemoveMemberKeepsValid(db, caller, c, u, now);
    case PromoteToAdmin(c, u) => GroupProperties.PromoteKeepsValid(db, caller, c, u);
    case DemoteFromAdmin(c, u) => GroupProperties.DemoteKeepsValid(db, caller, c, u);
  }

  lemma {:induction false} FriendshipRequestKeepsValid(db: Db, caller: int, a: FriendshipRequest, now: Time)
    requires Valid(db)
    ensures Valid(PerformFriendship(db, caller, a, now).db)
  {
    match a
    case SendFriendRequest(u) => FriendActions.SendKeepsValid(db, caller, u, now);
    case CancelFriendRequest(u) => FriendActions.CancelKeepsValid(db, caller, u);
    case AcceptFriendRequest(u) => FriendActions.AcceptKeepsValid(db, caller, u, now);
  }

  /** Hence every request, signed in or not, keeps the store valid. */
  lemma DispatchKeepsValid(db: Db, s: Session, a: Action, now: Time)
    requires Valid(db)
    ensures Valid(Dispatch(db, s, a, now).1)
  {
    if IsAuthenticated(s) {
      PerformKeepsValid(db, s.userId.value, a, now);
    }
  }

  /** A session whose id is 0 passes the gate: the actions then run for
      caller 0, which no user row has in a valid store. */
  lemma ZeroSessionPassesTheGate(db: Db, a: Action, now: Time)
    ensures Dispatch(db, Session(Some(0)), a, now).0.Answered?
    ensures CurrentUserId(Session(Some(0))) == CurrentUserId(Session(None))
  {
  }

  /** The controller's `RemoveMember` does not touch the hub's groups, so
      a connection the removed user opened earlier still receives every
      message sent to the conversation afterwards. */
  lemma RemovedMemberStillReceives(db: Db, hub: ChatHub.Hub, x: ChatHub.ConnectionId, conn: ChatHub.ConnectionId,
                                   admin: int, c: ConversationId, removed: int, text: string, t1: Time, t2: Time)
    requires GroupActions.RemoveMember(db, admin, c, removed, t1).outcome.Success?
    requires HubProperties.Owns(hub, removed, x) && x in ChatHub.GroupOf(hub, c)
    requires admin > 0 && IsActive(db, c, admin) && admin in db.users && !IsBlank(DotNet, text)
    ensures var db1 := GroupActions.RemoveMember(db, admin, c, removed, t1).db;
      var step := ChatHub.SendMessage(db1, hub, conn, admin, c, text, t2);
      && !IsActive(db1, c, removed)
      && (exists d :: d in step.sent && d.to == x && d.event.ReceiveMessage?)
  {
    var db1 := GroupActions.RemoveMember(db, admin, c, removed, t1).db;
    assert admin != removed;
    assert IsActive(db1, c, admin);
    var step := ChatHub.SendMessage(db1, hub, conn, admin, c, text, t2);
    var e := ChatHub.ReceiveMessage(db1.nextMessageId, c, Trim(DotNet, text), t2, admin, ChatHub.AvatarOf(db1.users[admin]));
    assert ChatHub.Delivery(x, e) in step.sent;
  }
}
