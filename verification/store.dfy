/** The relational store of the chat application: one datatype per table and
    one `Db` record holding every table.

    A table with a unique index is a map keyed by that index, so that "at most
    one row per key" is the shape of the data; the question each operation
    must answer is whether it ever inserts under a key that is already taken,
    which the database would refuse. Tables with an identity key are maps from
    that key together with the next identity value. */
module Store {
  import opened Optional

  type UserId = int
  type ConversationId = int
  type MessageId = int

  /** Timestamps; `DateTime.Now` is always passed in as `now`. */
  type Time = nat

  /** The stored password hash. SHA-256 is not modelled: the digest of a
      password is a free constructor, so equal digests mean equal passwords. */
  datatype Digest = Sha256(password: string)

  datatype User = User(
    username: string,
    email: string,
    passwordHash: Digest,
    fullName: Option<string>,
    avatar: Option<string>,
    isOnline: bool,
    lastSeen: Option<Time>,
    createdAt: Time)

  datatype Conversation = Conversation(
    name: Option<string>,
    isGroup: bool,
    createdBy: UserId,
    createdAt: Time,
    updatedAt: Time)

  /** A `ConversationMembers` row; its key is (conversation, user). */
  datatype Member = Member(
    joinedAt: Time,
    lastReadAt: Option<Time>,
    isAdmin: bool,
    isPinned: bool,
    isArchived: bool,
    deletedAt: Option<Time>)

  datatype Message = Message(
    conversationId: ConversationId,
    senderId: UserId,
    text: string,
    messageType: string,
    sentAt: Time,
    isEdited: bool,
    editedAt: Option<Time>,
    isDeleted: bool,
    deletedAt: Option<Time>,
    deletedBy: Option<UserId>,
    isPinned: bool,
    pinnedAt: Option<Time>,
    pinnedBy: Option<UserId>)

  /** A `MessageReactions` row; its key is (message, user). */
  datatype Reaction = Reaction(kind: string, createdAt: Time)

  /** A `MessageEditHistory` row: the text a message had before an edit. */
  datatype EditEntry = EditEntry(messageId: MessageId, oldText: string, editedAt: Time)

  datatype RequestStatus = Pending | Accepted

  /** A `FriendRequests` row; its key is (sender, receiver). */
  datatype FriendRequest = FriendRequest(status: RequestStatus, sentAt: Time, respondedAt: Option<Time>)

  /** A `SavedMessages` row; its key is (user, message). */
  datatype Saved = Saved(note: Option<string>, savedAt: Time)

  datatype NotificationType = FriendRequestSent | FriendRequestAccepted

  /** A `Notifications` row; its free-text content is not modelled. */
  datatype Notification = Notification(userId: UserId, kind: NotificationType, createdAt: Time, isRead: bool)

  datatype Db = Db(
    users: map<UserId, User>,
    nextUserId: int,
    conversations: map<ConversationId, Conversation>,
    nextConversationId: int,
    members: map<(ConversationId, UserId), Member>,
    messages: map<MessageId, Message>,
    nextMessageId: int,
    edits: seq<EditEntry>,
    reactions: map<(MessageId, UserId), Reaction>,
    friends: set<(UserId, UserId)>,
    requests: map<(UserId, UserId), FriendRequest>,
    saved: map<(UserId, MessageId), Saved>,
    notifications: seq<Notification>)

  /** An empty database: every table empty, identities starting at 1. */
  function EmptyDb(): Db {
    Db(map[], 1, map[], 1, map[], map[], 1, [], map[], {}, map[], map[], [])
  }

  /** A member row that has not been soft-deleted. */
  predicate IsActive(db: Db, c: ConversationId, u: UserId) {
    (c, u) in db.members && db.members[(c, u)].deletedAt.None?
  }

  /** The conversations in which `u` holds a non-deleted membership: the
      query `ConversationMembers.Where(UserId == u && DeletedAt == null)`. */
  function ActiveConversations(db: Db, u: UserId): (cs: set<ConversationId>)
    ensures forall c :: c in cs <==> IsActive(db, c, u)
  {
    set k | k in db.members && k.1 == u && db.members[k].deletedAt.None? :: k.0
  }

  /** A new member row as the schema's defaults make it: not an admin, not
      pinned, not archived, never read, not deleted. */
  function NewMember(now: Time, isAdmin: bool): Member {
    Member(now, None, isAdmin, false, false, None)
  }

  /** A new message as the schema's defaults make it: type "text", not
      edited, not deleted, not pinned. */
  function NewMessage(c: ConversationId, sender: UserId, text: string, now: Time): Message {
    Message(c, sender, text, "text", now, false, None, false, None, None, false, None, None)
  }

  /** The avatar a user is registered with and shown with when they have
      none. */
  const DefaultAvatar := "/images/default-avatar.png"

  /** The presence write of logging in and out and of the hub's connect and
      disconnect: if the user row exists, set its online flag and its
      last-seen time. */
  function SetPresence(db: Db, u: UserId, online: bool, now: Time): (r: Db)
    ensures r.users.Keys == db.users.Keys
    ensures u in db.users ==> r.users[u] == db.users[u].(isOnline := online, lastSeen := Some(now))
    ensures forall v :: v in db.users && v != u ==> r.users[v] == db.users[v]
    ensures r.(users := db.users) == db
  {
    if u in db.users then db.(users := db.users[u := db.users[u].(isOnline := online, lastSeen := Some(now))])
    else db
  }

  // ---------------------------------------------------------------------
  // State invariants: the identity and unique-index discipline of the
  // schema, its foreign keys, and the facts the operations keep about
  // message flags and friendships.
  // ---------------------------------------------------------------------

  /** Identity values start at 1, and every one handed out so far lies in
      [1, next). */
  predicate IdsBelow<T>(m: map<int, T>, next: int) {
    && 1 <= next
    && forall k :: k in m ==> 1 <= k < next
  }

  predicate IdentitiesFresh(db: Db) {
    && IdsBelow(db.users, db.nextUserId)
    && IdsBelow(db.conversations, db.nextConversationId)
    && IdsBelow(db.messages, db.nextMessageId)
  }

  /** The foreign keys the core's operations could otherwise break. */
  predicate ForeignKeys(db: Db) {
    && (forall k :: k in db.members ==> k.0 in db.conversations)
    && (forall id :: id in db.messages ==> db.messages[id].conversationId in db.conversations)
    && (forall k :: k in db.reactions ==> k.0 in db.messages)
    && (forall k :: k in db.saved ==> k.1 in db.messages)
    && (forall i :: 0 <= i < |db.edits| ==> db.edits[i].messageId in db.messages)
  }

  /** The foreign keys to `Users`. */
  predicate UserRefs(db: Db) {
    && (forall k :: k in db.members ==> k.1 in db.users)
    && (forall id :: id in db.messages ==> db.messages[id].senderId in db.users)
    && (forall id :: id in db.messages && db.messages[id].deletedBy.Some? ==> db.messages[id].deletedBy.value in db.users)
    && (forall id :: id in db.messages && db.messages[id].pinnedBy.Some? ==> db.messages[id].pinnedBy.value in db.users)
    && (forall k :: k in db.reactions ==> k.1 in db.users)
    && (forall e :: e in db.friends ==> e.0 in db.users && e.1 in db.users)
    && (forall k :: k in db.requests ==> k.0 in db.users && k.1 in db.users)
    && (forall k :: k in db.saved ==> k.0 in db.users)
    && (forall c :: c in db.conversations ==> db.conversations[c].createdBy in db.users)
    && (forall i :: 0 <= i < |db.notifications| ==> db.notifications[i].userId in db.users)
  }

  /** The edited, deleted and pinned flags of a message agree with the
      columns recording when and by whom. */
  predicate FlagsAgree(m: Message) {
    && (m.isEdited <==> m.editedAt.Some?)
    && (m.isDeleted <==> m.deletedAt.Some?)
    && (m.isDeleted <==> m.deletedBy.Some?)
    && (m.isPinned <==> m.pinnedAt.Some?)
    && (m.isPinned <==> m.pinnedBy.Some?)
  }

  predicate MessageFlagsAgree(db: Db) {
    forall id :: id in db.messages ==> FlagsAgree(db.messages[id])
  }

  /** Friend edges come in pairs. */
  predicate FriendsSymmetric(db: Db) {
    forall e :: e in db.friends ==> (e.1, e.0) in db.friends
  }

  /** The friend-request table agrees with the friend edges: nobody asks
      themselves, a pending request joins two users who are not friends, an
      accepted one joins two who are, and two users never have pending
      requests to each other at the same time. */
  predicate RequestsAgree(db: Db) {
    forall k :: k in db.requests ==>
      && k.0 != k.1
      && (db.requests[k].status == Pending ==> k !in db.friends)
      && (db.requests[k].status == Accepted ==> k in db.friends)
      && (db.requests[k].status == Pending ==> !IsPending(db, k.1, k.0))
  }

  /** A pending request from `s` to `r` exists. */
  predicate IsPending(db: Db, s: UserId, r: UserId) {
    (s, r) in db.requests && db.requests[(s, r)].status == Pending
  }

  /** The unique indexes on `Users.Username` and `Users.Email`. */
  predicate UsersUnique(db: Db) {
    && (forall a, b | a in db.users && b in db.users && db.users[a].username == db.users[b].username :: a == b)
    && (forall a, b | a in db.users && b in db.users && db.users[a].email == db.users[b].email :: a == b)
  }

  predicate Valid(db: Db) {
    && IdentitiesFresh(db)
    && UsersUnique(db)
    && ForeignKeys(db)
    && UserRefs(db)
    && MessageFlagsAgree(db)
    && FriendsSymmetric(db)
    && RequestsAgree(db)
  }

  lemma EmptyDbValid()
    ensures Valid(EmptyDb())
  {
  }

  // ---------------------------------------------------------------------
  // Frame lemmas: single-row writes that keep the store valid.
  // ---------------------------------------------------------------------

  /** The conditions under which a message row may be written. */
  predicate MessageFits(db: Db, m: Message) {
    && m.conversationId in db.conversations
    && m.senderId in db.users
    && (m.deletedBy.Some? ==> m.deletedBy.value in db.users)
    && (m.pinnedBy.Some? ==> m.pinnedBy.value in db.users)
    && FlagsAgree(m)
  }

  lemma UpdateMessageKeepsValid(db: Db, id: MessageId, m: Message)
    requires Valid(db) && id in db.messages && MessageFits(db, m)
    ensures Valid(db.(messages := db.messages[id := m]))
  {
    MessageWriteKeepsValid(db, id, m, db.nextMessageId);
    assert db.(messages := db.messages[id := m], nextMessageId := db.nextMessageId) == db.(messages := db.messages[id := m]);
  }

  /** Inserts a message row under the next identity. */
  function InsertMessage(db: Db, m: Message): Db {
    db.(messages := db.messages[db.nextMessageId := m], nextMessageId := db.nextMessageId + 1)
  }

  /** Sets a conversation's `UpdatedAt`, when the conversation exists. */
  function Touch(db: Db, c: ConversationId, now: Time): Db {
    if c in db.conversations then db.(conversations := db.conversations[c := db.conversations[c].(updatedAt := now)])
    else db
  }

  lemma InsertMessageKeepsValid(db: Db, m: Message)
    requires Valid(db) && MessageFits(db, m)
    ensures Valid(InsertMessage(db, m))
  {
    var n := db.nextMessageId;
    MessageWriteKeepsValid(db, n, m, n + 1);
    assert InsertMessage(db, m) == db.(messages := db.messages[n := m], nextMessageId := n + 1);
  }

  /** Writing a message row under an identity below the (possibly advanced)
      next identity keeps the store valid. */
  lemma {:induction false} MessageWriteKeepsValid(db: Db, id: MessageId, m: Message, next: int)
    requires Valid(db) && MessageFits(db, m)
    requires (id in db.messages || id == db.nextMessageId) && db.nextMessageId <= next && id < next
    ensures Valid(db.(messages := db.messages[id := m], nextMessageId := next))
  {
    var r := db.(messages := db.messages[id := m], nextMessageId := next);
    MessageWriteKeepsKeys(db, id, m, next);
    MessageWriteKeepsRefs(db, id, m, next);
    assert MessageFlagsAgree(r);
  }

  lemma {:induction false} MessageWriteKeepsKeys(db: Db, id: MessageId, m: Message, next: int)
    requires IdentitiesFresh(db) && ForeignKeys(db) && m.conversationId in db.conversations
    requires (id in db.messages || id == db.nextMessageId) && db.nextMessageId <= next && id < next
    ensures var r := db.(messages := db.messages[id := m], nextMessageId := next);
      IdentitiesFresh(r) && ForeignKeys(r)
  {
    var r := db.(messages := db.messages[id := m], nextMessageId := next);
    assert db.messages.Keys <= r.messages.Keys;
    assert forall k :: k in r.reactions ==> k.0 in r.messages;
    assert forall k :: k in r.saved ==> k.1 in r.messages;
    assert forall i :: 0 <= i < |r.edits| ==> r.edits[i].messageId in r.messages;
  }

  lemma {:induction false} MessageWriteKeepsRefs(db: Db, id: MessageId, m: Message, next: int)
    requires UserRefs(db) && MessageFits(db, m)
    ensures UserRefs(db.(messages := db.messages[id := m], nextMessageId := next))
  {
  }

  /** Appending an edit-history row for an existing message keeps the
      store valid. */
  lemma {:induction false} AppendEditKeepsValid(db: Db, e: EditEntry)
    requires Valid(db) && e.messageId in db.messages
    ensures Valid(db.(edits := db.edits + [e]))
  {
    AppendEditKeepsKeys(db, e);
  }

  lemma {:induction false} AppendEditKeepsKeys(db: Db, e: EditEntry)
    requires ForeignKeys(db) && e.messageId in db.messages
    ensures ForeignKeys(db.(edits := db.edits + [e]))
  {
    var r := db.(edits := db.edits + [e]);
    forall i | 0 <= i < |r.edits| ensures r.edits[i].messageId in r.messages {
      if i < |db.edits| { assert r.edits[i] == db.edits[i]; }
    }
  }

  lemma {:induction false} UpdateConversationKeepsValid(db: Db, c: ConversationId, conv: Conversation)
    requires Valid(db) && c in db.conversations && conv.createdBy in db.users
    ensures Valid(db.(conversations := db.conversations[c := conv]))
  {
    ConversationWriteKeepsKeys(db, c, conv);
    ConversationWriteKeepsRefs(db, c, conv);
  }

  lemma {:induction false} ConversationWriteKeepsKeys(db: Db, c: ConversationId, conv: Conversation)
    requires IdentitiesFresh(db) && ForeignKeys(db) && c in db.conversations
    ensures var r := db.(conversations := db.conversations[c := conv]);
      IdentitiesFresh(r) && ForeignKeys(r)
  {
    var r := db.(conversations := db.conversations[c := conv]);
    assert r.conversations.Keys == db.conversations.Keys;
  }

  lemma {:induction false} ConversationWriteKeepsRefs(db: Db, c: ConversationId, conv: Conversation)
    requires UserRefs(db) && conv.createdBy in db.users
    ensures UserRefs(db.(conversations := db.conversations[c := conv]))
  {
  }

  lemma TouchKeepsValid(db: Db, c: ConversationId, now: Time)
    requires Valid(db)
    ensures Valid(Touch(db, c, now))
  {
    if c in db.conversations {
      UpdateConversationKeepsValid(db, c, db.conversations[c].(updatedAt := now));
    }
  }

  /** A presence write keeps the store valid. */
  lemma {:induction false} PresenceKeepsValid(db: Db, u: UserId, online: bool, now: Time)
    requires Valid(db)
    ensures Valid(SetPresence(db, u, online, now))
  {
    var r := SetPresence(db, u, online, now);
    PresenceKeepsUnique(db, u, online, now);
    assert IdentitiesFresh(r);
    assert UserRefs(r);
  }

  lemma {:induction false} PresenceKeepsUnique(db: Db, u: UserId, online: bool, now: Time)
    requires UsersUnique(db)
    ensures UsersUnique(SetPresence(db, u, online, now))
  {
    var r := SetPresence(db, u, online, now);
    assert forall v :: v in r.users ==> r.users[v].username == db.users[v].username && r.users[v].email == db.users[v].email;
  }
}
