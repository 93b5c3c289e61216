/** The real-time hub: the static registry of each user's open connections,
    the SignalR groups `conversation_{id}` each connection has joined, and
    the hub methods clients invoke.

    One invocation is a function from the store, the hub state, the calling
    connection and the caller's user id (what `GetCurrentUserId` returns for
    that connection) to a new store, a new hub state and the set of
    deliveries made: which connection received which event. */
module ChatHub {
  import opened Optional
  import opened Store
  import opened Text
  import MessageOps

  type ConnectionId = string

  /** `registry` is the static `UserConnections` dictionary; `groups` is the
      group membership SignalR keeps for `Groups.AddToGroupAsync`. */
  datatype Hub = Hub(registry: map<UserId, set<ConnectionId>>, groups: map<ConversationId, set<ConnectionId>>)

  function EmptyHub(): Hub {
    Hub(map[], map[])
  }

  /** The connections in group `conversation_{c}`. */
  function GroupOf(hub: Hub, c: ConversationId): set<ConnectionId> {
    if c in hub.groups then hub.groups[c] else {}
  }

  /** The messages of the `Error` events the hub sends its caller. */
  datatype HubError = Unauthorized | NotAMember | EmptyMessage | CannotEdit | CannotDelete

  /** The client events, with the payload fields that carry state. */
  datatype Event =
    | Error(error: HubError)
    | ReceiveMessage(messageId: MessageId, conversationId: ConversationId, text: string,
                     sentAt: Time, senderId: UserId, senderAvatar: string)
    | ReactionUpdated(messageId: MessageId, reactions: set<MessageOps.ReactionGroup>)
    | MessageEdited(messageId: MessageId, newText: string, editedAt: Time)
    | MessageDeleted(messageId: MessageId)
    | UserTyping(userId: UserId, conversationId: ConversationId, fullName: string)
    | UserStoppedTyping(userId: UserId, conversationId: ConversationId)
    | MessageRead(conversationId: ConversationId, userId: UserId, lastReadAt: Time)
    | UserStatusChanged(userId: UserId, isOnline: bool, lastSeen: Time)

  datatype Delivery = Delivery(to: ConnectionId, event: Event)

  /** The result of one hub invocation. */
  datatype HubStep = HubStep(db: Db, hub: Hub, sent: set<Delivery>)

  /** One event sent to each of a set of connections. */
  function SendTo(conns: set<ConnectionId>, e: Event): (ds: set<Delivery>)
    ensures forall d :: d in ds <==> d.to in conns && d.event == e
  {
    set x | x in conns :: Delivery(x, e)
  }

  /** `user.FullName ?? user.Username`. */
  function DisplayName(u: User): string {
    match u.fullName
    case Some(n) => n
    case None => u.username
  }

  /** `user.Avatar ?? "/images/default-avatar.png"`. */
  function AvatarOf(u: User): string {
    match u.avatar
    case Some(a) => a
    case None => DefaultAvatar
  }

  /** `GetCurrentUserId` of the hub: a positive session id, else a claim
      that parses as an integer, else 0. */
  function HubCallerId(sessionUserId: Option<int>, claim: Option<int>): (id: int)
    ensures sessionUserId.Some? && sessionUserId.value > 0 ==> id == sessionUserId.value
    ensures (sessionUserId.None? || sessionUserId.value <= 0) && claim.Some? ==> id == claim.value
    ensures (sessionUserId.None? || sessionUserId.value <= 0) && claim.None? ==> id == 0
  {
    if sessionUserId.Some? && sessionUserId.value > 0 then sessionUserId.value
    else if claim.Some? then claim.value
    else 0
  }

  // ---------------------------------------------------------------------
  // Presence
  // ---------------------------------------------------------------------

  /** The connections `NotifyUserOnlineStatus(u, …)` reaches: those in the
      group of every conversation `u` actively belongs to. */
  function StatusAudience(db: Db, hub: Hub, u: UserId): (xs: set<ConnectionId>)
    ensures forall x :: x in xs <==> exists c :: IsActive(db, c, u) && x in GroupOf(hub, c)
  {
    var xs := set c, x | c in ActiveConversations(db, u) && x in GroupOf(hub, c) :: x;
    assert forall c, x :: IsActive(db, c, u) && x in GroupOf(hub, c) ==> c in ActiveConversations(db, u);
    xs
  }

  /** Adds `conn` to the group of every conversation in `cs`. */
  function JoinGroups(groups: map<ConversationId, set<ConnectionId>>, cs: set<ConversationId>,
                      conn: ConnectionId): (r: map<ConversationId, set<ConnectionId>>)
    ensures forall c :: c in r <==> c in groups || c in cs
    ensures forall c :: c in cs ==> r[c] == (if c in groups then groups[c] else {}) + {conn}
    ensures forall c :: c in groups && c !in cs ==> r[c] == groups[c]
  {
    map c | c in groups.Keys + cs :: (if c in groups then groups[c] else {}) + (if c in cs then {conn} else {})
  }

  /** `OnConnectedAsync`. For a caller with an id: register the connection,
      mark the user online, announce it to every conversation the user is in
      (before the new connection joins any group, so the announcement goes
      out on every connect, not only the first), then join the new
      connection to those conversations' groups. */
  function OnConnected(db: Db, hub: Hub, conn: ConnectionId, caller: int, now: Time): (r: HubStep)
    ensures caller <= 0 ==> r == HubStep(db, hub, {})
    ensures caller > 0 ==>
      && caller in r.hub.registry
      && r.hub.registry[caller] == (if caller in hub.registry then hub.registry[caller] else {}) + {conn}
      && (forall u :: u in hub.registry && u != caller ==> u in r.hub.registry && r.hub.registry[u] == hub.registry[u])
      && r.hub.registry.Keys == hub.registry.Keys + {caller}
      && r.db == SetPresence(db, caller, true, now)
      && (forall d :: d in r.sent <==>
            d.event == UserStatusChanged(caller, true, now) && exists c :: IsActive(db, c, caller) && d.to in GroupOf(hub, c))
      && (forall c :: GroupOf(r.hub, c) == GroupOf(hub, c) + (if IsActive(db, c, caller) then {conn} else {}))
  {
    if caller <= 0 then HubStep(db, hub, {})
    else
      var conns := (if caller in hub.registry then hub.registry[caller] else {}) + {conn};
      var db' := SetPresence(db, caller, true, now);
      var sent := SendTo(StatusAudience(db', hub, caller), UserStatusChanged(caller, true, now));
      var groups' := JoinGroups(hub.groups, ActiveConversations(db, caller), conn);
      HubStep(db', Hub(hub.registry[caller := conns], groups'), sent)
  }

  /** `OnDisconnectedAsync`. For a registered caller: forget the connection;
      when it was the user's last one, drop the user from the registry, mark
      them offline and announce it. The connection is still in its groups
      here; SignalR removes it afterwards (`ConnectionClosed`). */
  function OnDisconnected(db: Db, hub: Hub, conn: ConnectionId, caller: int, now: Time): (r: HubStep)
    ensures r.hub.groups == hub.groups
    ensures caller <= 0 || caller !in hub.registry ==> r == HubStep(db, hub, {})
    ensures caller > 0 && caller in hub.registry && hub.registry[caller] - {conn} != {} ==>
      r == HubStep(db, hub.(registry := hub.registry[caller := hub.registry[caller] - {conn}]), {})
    ensures caller > 0 && caller in hub.registry && hub.registry[caller] - {conn} == {} ==>
      && r.hub.registry == hub.registry - {caller}
      && r.db == SetPresence(db, caller, false, now)
      && (forall d :: d in r.sent <==>
            d.event == UserStatusChanged(caller, false, now) && exists c :: IsActive(db, c, caller) && d.to in GroupOf(hub, c))
  {
    if caller <= 0 || caller !in hub.registry then HubStep(db, hub, {})
    else
      var rest := hub.registry[caller] - {conn};
      if rest != {} then HubStep(db, hub.(registry := hub.registry[caller := rest]), {})
      else
        var db' := SetPresence(db, caller, false, now);
        HubStep(db', hub.(registry := hub.registry - {caller}),
                SendTo(StatusAudience(db', hub, caller), UserStatusChanged(caller, false, now)))
  }

  /** What SignalR does with a closed connection after the hub's handler:
      it leaves every group. */
  function LeaveAllGroups(hub: Hub, conn: ConnectionId): (r: Hub)
    ensures r.registry == hub.registry
    ensures forall c :: GroupOf(r, c) == GroupOf(hub, c) - {conn}
  {
    hub.(groups := map c | c in hub.groups :: hub.groups[c] - {conn})
  }

  /** A connection closing: the hub's `OnDisconnectedAsync` followed by
      SignalR's group cleanup. */
  function ConnectionClosed(db: Db, hub: Hub, conn: ConnectionId, caller: int, now: Time): (r: HubStep)
    ensures var s := OnDisconnected(db, hub, conn, caller, now);
      r.db == s.db && r.sent == s.sent && r.hub.registry == s.hub.registry
    ensures forall c :: GroupOf(r.hub, c) == GroupOf(hub, c) - {conn}
  {
    var s := OnDisconnected(db, hub, conn, caller, now);
    s.(hub := LeaveAllGroups(s.hub, conn))
  }

  // ---------------------------------------------------------------------
  // Messages
  // ---------------------------------------------------------------------

  /** The store half of a successful send: a new message with the next
      identity, and the conversation's `UpdatedAt` moved to now when the
      conversation exists. */
  function PostMessage(db: Db, c: ConversationId, sender: UserId, body: string, now: Time): (r: Db)
    ensures r.messages == db.messages[db.nextMessageId := NewMessage(c, sender, body, now)]
    ensures r.nextMessageId == db.nextMessageId + 1
    ensures r.conversations.Keys == db.conversations.Keys
    ensures c in db.conversations ==> r.conversations[c] == db.conversations[c].(updatedAt := now)
    ensures forall k :: k in db.conversations && k != c ==> r.conversations[k] == db.conversations[k]
    ensures r.(messages := db.messages, nextMessageId := db.nextMessageId, conversations := db.conversations) == db
  {
    Touch(InsertMessage(db, NewMessage(c, sender, body, now)), c, now)
  }

  /** `SendMessage(conversationId, messageText)`. An anonymous caller, a
      caller without an active membership and a blank text each earn the
      caller an `Error`. Otherwise the trimmed, non-empty text is stored as a
      new message and the group receives it. A caller without a user row
      cannot be saved as a sender (foreign key), so the method fails with
      nothing stored or sent. */
  function SendMessage(db: Db, hub: Hub, conn: ConnectionId, caller: int, c: ConversationId,
                       text: string, now: Time): (r: HubStep)
    ensures r.hub == hub
    ensures caller <= 0 ==> r == HubStep(db, hub, {Delivery(conn, Error(Unauthorized))})
    ensures caller > 0 && !IsActive(db, c, caller) ==> r == HubStep(db, hub, {Delivery(conn, Error(NotAMember))})
    ensures caller > 0 && IsActive(db, c, caller) && IsBlank(DotNet, text) ==>
      r == HubStep(db, hub, {Delivery(conn, Error(EmptyMessage))})
    ensures caller > 0 && IsActive(db, c, caller) && !IsBlank(DotNet, text) ==>
      && Trim(DotNet, text) != []
      && (caller !in db.users ==> r.db == db && r.sent == {})
      && (caller in db.users ==> r.db == PostMessage(db, c, caller, Trim(DotNet, text), now))
      && (caller in db.users ==> forall d :: d in r.sent <==>
            && d.to in GroupOf(hub, c)
            && d.event == ReceiveMessage(db.nextMessageId, c, Trim(DotNet, text), now, caller, AvatarOf(db.users[caller])))
  {
    if caller <= 0 then HubStep(db, hub, {Delivery(conn, Error(Unauthorized))})
    else if !IsActive(db, c, caller) then HubStep(db, hub, {Delivery(conn, Error(NotAMember))})
    else if IsBlank(DotNet, text) then HubStep(db, hub, {Delivery(conn, Error(EmptyMessage))})
    else
      BlankIffTrimEmpty(DotNet, text);
      var body := Trim(DotNet, text);
      if caller !in db.users then HubStep(db, hub, {})
      else
        HubStep(PostMessage(db, c, caller, body, now), hub, SendTo(GroupOf(hub, c),
                                 ReceiveMessage(db.nextMessageId, c, body, now, caller, AvatarOf(db.users[caller]))))
  }

  /** `ReactToMessage(messageId, reactionType)`: silently ignored for an
      anonymous caller or a missing message; otherwise the caller's reaction
      is toggled and the message's conversation receives the regrouped
      reactions. Membership of the conversation is not checked. A caller
      without a user row cannot own a new reaction (foreign key), so adding
      one fails with nothing stored or sent. */
  function ReactToMessage(db: Db, hub: Hub, caller: int, id: MessageId, kind: string, now: Time): (r: HubStep)
    ensures r.hub == hub
    ensures caller <= 0 || id !in db.messages || (caller !in db.users && (id, caller) !in db.reactions) ==>
      r == HubStep(db, hub, {})
    ensures caller > 0 && id in db.messages && (caller in db.users || (id, caller) in db.reactions) ==>
      && r.db == db.(reactions := MessageOps.ToggleReaction(db.reactions, id, caller, kind, now).0)
      && r.sent == SendTo(GroupOf(hub, db.messages[id].conversationId),
                          ReactionUpdated(id, MessageOps.ReactionGroups(r.db.reactions, id)))
  {
    if caller <= 0 || id !in db.messages || (caller !in db.users && (id, caller) !in db.reactions) then HubStep(db, hub, {})
    else
      var rs := MessageOps.ToggleReaction(db.reactions, id, caller, kind, now).0;
      HubStep(db.(reactions := rs), hub,
              SendTo(GroupOf(hub, db.messages[id].conversationId), ReactionUpdated(id, MessageOps.ReactionGroups(rs, id))))
  }

  /** `EditMessage(messageId, newText)` of the hub: only the sender may edit;
      the old text goes to the history and the trimmed new text replaces it.
      Unlike the controller action, a blank new text is accepted. */
  function EditMessage(db: Db, hub: Hub, conn: ConnectionId, caller: int, id: MessageId,
                       newText: string, now: Time): (r: HubStep)
    ensures r.hub == hub
    ensures caller <= 0 ==> r == HubStep(db, hub, {})
    ensures caller > 0 && (id !in db.messages || db.messages[id].senderId != caller) ==>
      r == HubStep(db, hub, {Delivery(conn, Error(CannotEdit))})
    ensures caller > 0 && id in db.messages && db.messages[id].senderId == caller ==>
      && r.db == MessageOps.ApplyEdit(db, id, Trim(DotNet, newText), now)
      && r.sent == SendTo(GroupOf(hub, db.messages[id].conversationId), MessageEdited(id, Trim(DotNet, newText), now))
  {
    if caller <= 0 then HubStep(db, hub, {})
    else if id !in db.messages || db.messages[id].senderId != caller then
      HubStep(db, hub, {Delivery(conn, Error(CannotEdit))})
    else
      var text := Trim(DotNet, newText);
      HubStep(MessageOps.ApplyEdit(db, id, text, now), hub,
              SendTo(GroupOf(hub, db.messages[id].conversationId), MessageEdited(id, text, now)))
  }

  /** `DeleteMessage(messageId)` of the hub: only the sender may delete;
      the message is soft-deleted, whether or not it already was. */
  function DeleteMessage(db: Db, hub: Hub, conn: ConnectionId, caller: int, id: MessageId, now: Time): (r: HubStep)
    ensures r.hub == hub
    ensures caller <= 0 ==> r == HubStep(db, hub, {})
    ensures caller > 0 && (id !in db.messages || db.messages[id].senderId != caller) ==>
      r == HubStep(db, hub, {Delivery(conn, Error(CannotDelete))})
    ensures caller > 0 && id in db.messages && db.messages[id].senderId == caller ==>
      && r.db == MessageOps.ApplyDelete(db, id, caller, now)
      && r.sent == SendTo(GroupOf(hub, db.messages[id].conversationId), MessageDeleted(id))
  {
    if caller <= 0 then HubStep(db, hub, {})
    else if id !in db.messages || db.messages[id].senderId != caller then
      HubStep(db, hub, {Delivery(conn, Error(CannotDelete))})
    else
      HubStep(MessageOps.ApplyDelete(db, id, caller, now), hub,
              SendTo(GroupOf(hub, db.messages[id].conversationId), MessageDeleted(id)))
  }

  // ---------------------------------------------------------------------
  // Typing and read receipts
  // ---------------------------------------------------------------------

  /** `UserTyping(conversationId)`: every other connection of the group
      learns who is typing; the calling connection never does. Membership
      is not checked; a caller without a user row is ignored. */
  function UserTypingStep(db: Db, hub: Hub, conn: ConnectionId, caller: int, c: ConversationId): (r: HubStep)
    ensures r.db == db && r.hub == hub
    ensures forall d :: d in r.sent ==> d.to != conn && d.to in GroupOf(hub, c)
    ensures caller <= 0 || caller !in db.users ==> r.sent == {}
    ensures caller > 0 && caller in db.users ==>
      r.sent == SendTo(GroupOf(hub, c) - {conn}, UserTyping(caller, c, DisplayName(db.users[caller])))
  {
    if caller <= 0 || caller !in db.users then HubStep(db, hub, {})
    else HubStep(db, hub, SendTo(GroupOf(hub, c) - {conn}, UserTyping(caller, c, DisplayName(db.users[caller]))))
  }

  /** `UserStoppedTyping(conversationId)`: as `UserTyping`, without the user
      lookup. */
  function UserStoppedTypingStep(db: Db, hub: Hub, conn: ConnectionId, caller: int, c: ConversationId): (r: HubStep)
    ensures r.db == db && r.hub == hub
    ensures caller <= 0 ==> r.sent == {}
    ensures caller > 0 ==> forall d :: d in r.sent <==>
      d.to in GroupOf(hub, c) && d.to != conn && d.event == UserStoppedTyping(caller, c)
  {
    if caller <= 0 then HubStep(db, hub, {})
    else HubStep(db, hub, SendTo(GroupOf(hub, c) - {conn}, UserStoppedTyping(caller, c)))
  }

  /** `MarkAsRead(conversationId)`: the caller's membership row, deleted or
      not, gets `LastReadAt = now`, and the group is told. */
  function MarkAsRead(db: Db, hub: Hub, caller: int, c: ConversationId, now: Time): (r: HubStep)
    ensures r.hub == hub
    ensures caller <= 0 || (c, caller) !in db.members ==> r == HubStep(db, hub, {})
    ensures caller > 0 && (c, caller) in db.members ==>
      && r.db.members.Keys == db.members.Keys
      && r.db.members[(c, caller)] == db.members[(c, caller)].(lastReadAt := Some(now))
      && (forall k :: k in db.members && k != (c, caller) ==> r.db.members[k] == db.members[k])
      && r.db.(members := db.members) == db
      && r.sent == SendTo(GroupOf(hub, c), MessageRead(c, caller, now))
  {
    if caller <= 0 || (c, caller) !in db.members then HubStep(db, hub, {})
    else
      var m := db.members[(c, caller)];
      HubStep(db.(members := db.members[(c, caller) := m.(lastReadAt := Some(now))]), hub,
              SendTo(GroupOf(hub, c), MessageRead(c, caller, now)))
  }
}
