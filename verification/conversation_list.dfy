/** The sidebar's conversation list: one summary per conversation in which
    the user holds an active membership, carrying the unread count and the
    latest message, pinned conversations first and then the most recently
    updated. */
module ConversationList {
  import opened Optional
  import opened Store
  import ChatHub

  // ---------------------------------------------------------------------
  // Unread messages and the latest message
  // ---------------------------------------------------------------------

  /** A message counts as unread for the member row `row` of user `u` in
      conversation `c`: someone else sent it there, it is not deleted, and it
      was sent after the last read (all of them when there was none) and
      after the row's deletion, if any. */
  predicate IsUnread(m: Message, c: ConversationId, u: UserId, row: Member) {
    && m.conversationId == c
    && m.senderId != u
    && !m.isDeleted
    && (row.lastReadAt.None? || m.sentAt > row.lastReadAt.value)
    && (row.deletedAt.None? || m.sentAt > row.deletedAt.value)
  }

  function UnreadMessages(db: Db, c: ConversationId, u: UserId): (ids: set<MessageId>)
    requires (c, u) in db.members
    ensures forall id :: id in ids <==> id in db.messages && IsUnread(db.messages[id], c, u, db.members[(c, u)])
  {
    set id | id in db.messages && IsUnread(db.messages[id], c, u, db.members[(c, u)])
  }

  /** The messages of `c` that are not deleted. */
  function VisibleMessages(db: Db, c: ConversationId): (ids: set<MessageId>)
    ensures forall id :: id in ids <==> id in db.messages && db.messages[id].conversationId == c && !db.messages[id].isDeleted
  {
    set id | id in db.messages && db.messages[id].conversationId == c && !db.messages[id].isDeleted
  }

  /** `last` is the latest visible message of `c`, or none when `c` has no
      visible message. Which of several messages sent at the same instant
      is taken is left open. */
  predicate IsLastMessage(db: Db, c: ConversationId, last: Option<MessageId>) {
    match last
    case None => VisibleMessages(db, c) == {}
    case Some(id) =>
      && id in VisibleMessages(db, c)
      && forall j :: j in VisibleMessages(db, c) ==> db.messages[j].sentAt <= db.messages[id].sentAt
  }

  /** A set that is not empty has an element to pick. */
  lemma NonEmptyHasElement(s: set<int>)
    requires s != {}
    ensures exists x :: x in s
  {
    if forall x :: x !in s {
      assert false;
    }
  }

  /** Picks a message sent no earlier than any other of `ids`. */
  method Latest(db: Db, ids: set<MessageId>) returns (best: MessageId)
    requires ids != {} && ids <= db.messages.Keys
    ensures best in ids
    ensures forall j :: j in ids ==> db.messages[j].sentAt <= db.messages[best].sentAt
  {
    NonEmptyHasElement(ids);
    best :| best in ids;
    var todo := ids - {best};
    while todo != {}
      invariant best in ids && todo <= ids
      invariant forall j :: j in ids - todo ==> db.messages[j].sentAt <= db.messages[best].sentAt
      decreases |todo|
    {
      NonEmptyHasElement(todo);
      var j :| j in todo;
      if db.messages[j].sentAt > db.messages[best].sentAt {
        best := j;
      }
      todo := todo - {j};
    }
  }

  // ---------------------------------------------------------------------
  // Summaries
  // ---------------------------------------------------------------------

  datatype Summary = Summary(
    conversationId: ConversationId,
    name: string,
    isGroup: bool,
    isPinned: bool,
    isArchived: bool,
    lastReadAt: Option<Time>,
    updatedAt: Time,
    members: set<UserId>,
    lastMessage: Option<MessageId>,
    unreadCount: nat)

  /** The users holding an active membership in `c`. */
  function ActiveMembers(db: Db, c: ConversationId): (us: set<UserId>)
    ensures forall u :: u in us <==> IsActive(db, c, u)
  {
    set k | k in db.members && k.0 == c && db.members[k].deletedAt.None? :: k.1
  }

  /** `s` is what the list shows `u` for the conversation it names. */
  predicate Describes(db: Db, u: UserId, s: Summary) {
    var c := s.conversationId;
    && IsActive(db, c, u) && c in db.conversations
    && var conv := db.conversations[c];
       var row := db.members[(c, u)];
       && s.name == (if conv.name.Some? then conv.name.value else "")
       && s.isGroup == conv.isGroup
       && s.isPinned == row.isPinned
       && s.isArchived == row.isArchived
       && s.lastReadAt == row.lastReadAt
       && s.updatedAt == conv.updatedAt
       && s.members == ActiveMembers(db, c)
       && IsLastMessage(db, c, s.lastMessage)
       && s.unreadCount == |UnreadMessages(db, c, u)|
  }

  method SummaryFor(db: Db, u: UserId, c: ConversationId) returns (s: Summary)
    requires IsActive(db, c, u) && c in db.conversations
    ensures s.conversationId == c && Describes(db, u, s)
  {
    var conv := db.conversations[c];
    var row := db.members[(c, u)];
    var visible := VisibleMessages(db, c);
    var last: Option<MessageId> := None;
    if visible != {} {
      var id := Latest(db, visible);
      last := Some(id);
    }
    s := Summary(c, if conv.name.Some? then conv.name.value else "", conv.isGroup, row.isPinned, row.isArchived,
                 row.lastReadAt, conv.updatedAt, ActiveMembers(db, c), last, |UnreadMessages(db, c, u)|);
  }

  // ---------------------------------------------------------------------
  // Ordering
  // ---------------------------------------------------------------------

  /** `a` comes strictly before `b`: pinned before unpinned, then the more
      recently updated first. */
  predicate Outranks(a: Summary, b: Summary) {
    || (a.isPinned && !b.isPinned)
    || (a.isPinned == b.isPinned && a.updatedAt > b.updatedAt)
  }

  predicate Sorted(l: seq<Summary>) {
    forall i, j :: 0 <= i < j < |l| ==> !Outranks(l[j], l[i])
  }

  function IdsOf(l: seq<Summary>): set<ConversationId> {
    if l == [] then {} else {l[0].conversationId} + IdsOf(l[1..])
  }

  /** No conversation is summarised twice. */
  predicate DistinctIds(l: seq<Summary>) {
    l == [] || (l[0].conversationId !in IdsOf(l[1..]) && DistinctIds(l[1..]))
  }

  /** An element of a sorted list is never outranked by a later one. */
  lemma {:induction false} HeadNotOutranked(l: seq<Summary>, x: Summary)
    requires Sorted(l) && l != [] && x in l
    ensures !Outranks(x, l[0])
  {
    var j :| 0 <= j < |l| && l[j] == x;
  }

  /** Inserts `s` after every element it does not outrank, so that equal
      keys keep the order in which they arrived. */
  function Insert(l: seq<Summary>, s: Summary): (r: seq<Summary>)
    requires Sorted(l)
    ensures Sorted(r)
    ensures multiset(r) == multiset(l) + multiset{s}
  {
    if l == [] then [s]
    else if Outranks(s, l[0]) then
      InFrontKeepsSorted(l, s);
      [s] + l
    else
      var rest := Insert(l[1..], s);
      BehindHeadKeepsSorted(l, s, rest);
      [l[0]] + rest
  }

  /** A summary that outranks the head of a sorted list may go first. */
  lemma InFrontKeepsSorted(l: seq<Summary>, s: Summary)
    requires Sorted(l) && l != [] && Outranks(s, l[0])
    ensures Sorted([s] + l)
  {
    forall j | 0 <= j < |l| ensures !Outranks(l[j], s) {
      HeadNotOutranked(l, l[j]);
    }
  }

  /** When `s` does not outrank the head, the head stays in front of the
      rest with `s` inserted. */
  lemma BehindHeadKeepsSorted(l: seq<Summary>, s: Summary, rest: seq<Summary>)
    requires Sorted(l) && l != [] && !Outranks(s, l[0])
    requires Sorted(rest) && multiset(rest) == multiset(l[1..]) + multiset{s}
    ensures Sorted([l[0]] + rest)
    ensures multiset([l[0]] + rest) == multiset(l) + multiset{s}
  {
    assert l == [l[0]] + l[1..];
    forall j | 0 <= j < |rest| ensures !Outranks(rest[j], l[0]) {
      assert rest[j] in multiset(rest);
      if rest[j] != s {
        assert rest[j] in l;
        HeadNotOutranked(l, rest[j]);
      }
    }
  }

  /** Inserting adds exactly the new summary's identity, and keeps the
      identities distinct when it was not there yet. */
  lemma {:induction false} InsertIds(l: seq<Summary>, s: Summary)
    requires Sorted(l)
    ensures IdsOf(Insert(l, s)) == IdsOf(l) + {s.conversationId}
  {
    var r := Insert(l, s);
    if l == [] {
      assert r == [s] && r[1..] == [];
    } else if Outranks(s, l[0]) {
      assert r == [s] + l && r[1..] == l;
    } else {
      InsertIds(l[1..], s);
      assert r == [l[0]] + Insert(l[1..], s) && r[1..] == Insert(l[1..], s);
    }
  }

  /** `GetUserConversationsAsync(userId)`: a summary per active membership,
      pinned first and then by the conversation's last update. A membership
      whose conversation row is missing throws inside the method, whose
      handler answers with an empty list. */
  method ConversationsOf(db: Db, u: UserId) returns (list: seq<Summary>)
    ensures !(ActiveConversations(db, u) <= db.conversations.Keys) ==> list == []
    ensures ActiveConversations(db, u) <= db.conversations.Keys ==>
      && IdsOf(list) == ActiveConversations(db, u)
      && DistinctIds(list)
      && |list| == |ActiveConversations(db, u)|
      && AllDescribe(db, u, list)
      && (forall i, j :: 0 <= i < j < |list| ==>
            && (list[j].isPinned ==> list[i].isPinned)
            && (list[i].isPinned == list[j].isPinned ==> list[i].updatedAt >= list[j].updatedAt))
  {
    var active := ActiveConversations(db, u);
    if !(active <= db.conversations.Keys) {
      return [];
    }
    list := SortedSummaries(db, u, active);
    SizeMeansDistinct(list);
    SortedMeansPinnedFirst(list);
  }

  /** Summarises each conversation of `active` and inserts it in order. */
  method SortedSummaries(db: Db, u: UserId, active: set<ConversationId>) returns (list: seq<Summary>)
    requires forall c :: c in active ==> IsActive(db, c, u) && c in db.conversations
    ensures Sorted(list) && |list| == |active| && IdsOf(list) == active && AllDescribe(db, u, list)
  {
    list := [];
    var todo := active;
    while todo != {}
      invariant todo <= active
      invariant Sorted(list) && |list| == |IdsOf(list)|
      invariant IdsOf(list) == active - todo
      invariant AllDescribe(db, u, list)
      decreases |todo|
    {
      NonEmptyHasElement(todo);
      var c :| c in todo;
      var s := SummaryFor(db, u, c);
      InsertStep(db, u, list, s, active, todo);
      list := Insert(list, s);
      todo := todo - {c};
    }
  }

  /** One step of the loop above: inserting a summary of a conversation not
      yet listed keeps the list sorted, without repeats and correct. */
  lemma InsertStep(db: Db, u: UserId, l: seq<Summary>, s: Summary, active: set<ConversationId>, todo: set<ConversationId>)
    requires Sorted(l) && |l| == |IdsOf(l)| && IdsOf(l) == active - todo && AllDescribe(db, u, l)
    requires Describes(db, u, s) && s.conversationId in todo && todo <= active
    ensures var r := Insert(l, s);
      && Sorted(r) && |r| == |IdsOf(r)| && AllDescribe(db, u, r)
      && IdsOf(r) == active - (todo - {s.conversationId})
  {
    InsertKeepsIdsApart(l, s);
    InsertDescribes(db, u, l, s);
  }

  /** Inserting a summary of a conversation not yet listed adds its id and
      keeps one summary per id. */
  lemma InsertKeepsIdsApart(l: seq<Summary>, s: Summary)
    requires Sorted(l) && |l| == |IdsOf(l)| && s.conversationId !in IdsOf(l)
    ensures var r := Insert(l, s);
      |r| == |IdsOf(r)| && IdsOf(r) == IdsOf(l) + {s.conversationId}
  {
    InsertIds(l, s);
    var r := Insert(l, s);
    assert |r| == |l| + 1 by {
      assert |multiset(r)| == |multiset(l)| + 1;
    }
  }

  predicate AllDescribe(db: Db, u: UserId, l: seq<Summary>) {
    forall i :: 0 <= i < |l| ==> Describes(db, u, l[i])
  }

  lemma InsertDescribes(db: Db, u: UserId, l: seq<Summary>, s: Summary)
    requires Sorted(l) && AllDescribe(db, u, l) && Describes(db, u, s)
    ensures AllDescribe(db, u, Insert(l, s))
  {
    var r := Insert(l, s);
    forall i | 0 <= i < |r| ensures Describes(db, u, r[i]) {
      assert r[i] in multiset(r);
      if r[i] != s {
        assert r[i] in multiset(l);
        var j :| 0 <= j < |l| && l[j] == r[i];
      }
    }
  }

  /** What sortedness means for the list the user sees. */
  lemma SortedMeansPinnedFirst(l: seq<Summary>)
    requires Sorted(l)
    ensures forall i, j :: 0 <= i < j < |l| ==>
      && (l[j].isPinned ==> l[i].isPinned)
      && (l[i].isPinned == l[j].isPinned ==> l[i].updatedAt >= l[j].updatedAt)
  {
    forall i, j | 0 <= i < j < |l|
      ensures (l[j].isPinned ==> l[i].isPinned)
      ensures (l[i].isPinned == l[j].isPinned ==> l[i].updatedAt >= l[j].updatedAt)
    {
      assert !Outranks(l[j], l[i]);
    }
  }

  /** A list has at most as many identities as summaries. */
  lemma {:induction false} IdsBound(l: seq<Summary>)
    ensures |IdsOf(l)| <= |l|
  {
    if l != [] {
      IdsBound(l[1..]);
    }
  }

  /** As many identities as summaries means no identity twice. */
  lemma {:induction false} SizeMeansDistinct(l: seq<Summary>)
    requires |IdsOf(l)| == |l|
    ensures DistinctIds(l)
  {
    if l != [] {
      IdsBound(l[1..]);
      if l[0].conversationId in IdsOf(l[1..]) {
        assert false;
      }
      SizeMeansDistinct(l[1..]);
    }
  }

  // ---------------------------------------------------------------------
  // How the hub moves the unread count
  // ---------------------------------------------------------------------

  /** Marking a conversation read clears the reader's unread messages sent
      up to that moment and leaves every other member's count alone. */
  lemma MarkAsReadClearsUnread(db: Db, hub: ChatHub.Hub, u: int, c: ConversationId, now: Time)
    requires u > 0 && (c, u) in db.members
    requires forall id :: id in db.messages && db.messages[id].conversationId == c ==> db.messages[id].sentAt <= now
    ensures var r := ChatHub.MarkAsRead(db, hub, u, c, now).db;
      && UnreadMessages(r, c, u) == {}
      && forall v :: (c, v) in db.members && v != u ==> UnreadMessages(r, c, v) == UnreadMessages(db, c, v)
  {
    var r := ChatHub.MarkAsRead(db, hub, u, c, now).db;
    assert r.members[(c, u)].lastReadAt == Some(now);
    assert r.messages == db.messages;
    assert forall id :: id !in UnreadMessages(r, c, u);
    assert UnreadMessages(r, c, u) == {};
  }

  /** A message another member sends is one more unread message for `u`,
      provided `u` last read and joined before it was sent; the sender's own
      message never is. */
  lemma {:induction false} SendAddsUnread(db: Db, c: ConversationId, sender: UserId, u: UserId, body: string, now: Time)
    requires (c, u) in db.members && db.nextMessageId !in db.messages
    requires var row := db.members[(c, u)];
      (row.lastReadAt.None? || row.lastReadAt.value < now) && (row.deletedAt.None? || row.deletedAt.value < now)
    ensures var r := ChatHub.PostMessage(db, c, sender, body, now);
      && (sender != u ==> UnreadMessages(r, c, u) == UnreadMessages(db, c, u) + {db.nextMessageId})
      && (sender != u ==> |UnreadMessages(r, c, u)| == |UnreadMessages(db, c, u)| + 1)
      && (sender == u ==> UnreadMessages(r, c, u) == UnreadMessages(db, c, u))
  {
    var r := ChatHub.PostMessage(db, c, sender, body, now);
    assert r.members == db.members;
    assert db.nextMessageId !in UnreadMessages(db, c, u);
    if sender != u {
      assert UnreadMessages(r, c, u) == UnreadMessages(db, c, u) + {db.nextMessageId};
    } else {
      assert UnreadMessages(r, c, u) == UnreadMessages(db, c, u);
    }
  }
}
