/** What the hub keeps true and what it does not: the registry and online
    flags agree, SignalR groups hold only connections of active members, a
    user goes offline exactly when their last connection closes, and the
    hub's own steps keep the store valid. */
module HubProperties {
  import opened Optional
  import opened Store
  import opened Text
  import opened ChatHub
  import MessageOps

  /** Every registered user has a positive id and at least one connection. */
  predicate RegistryWellFormed(hub: Hub) {
    forall u :: u in hub.registry ==> u > 0 && hub.registry[u] != {}
  }

  /** Connection `x` is registered to user `u`. */
  predicate Owns(hub: Hub, u: UserId, x: ConnectionId) {
    u in hub.registry && x in hub.registry[u]
  }

  /** Every connection in a conversation's group belongs to a registered
      user who is an active member of that conversation. */
  ghost predicate GroupsMatch(db: Db, hub: Hub) {
    forall c, x :: x in GroupOf(hub, c) ==> exists u :: Owns(hub, u, x) && IsActive(db, c, u)
  }

  /** A user row is flagged online exactly when the registry holds the user. */
  predicate PresenceAgrees(db: Db, hub: Hub) {
    forall u :: u in db.users ==> (db.users[u].isOnline <==> u in hub.registry)
  }

  lemma ConnectKeepsRegistryWellFormed(db: Db, hub: Hub, conn: ConnectionId, caller: int, now: Time)
    requires RegistryWellFormed(hub)
    ensures RegistryWellFormed(OnConnected(db, hub, conn, caller, now).hub)
  {
  }

  lemma CloseKeepsRegistryWellFormed(db: Db, hub: Hub, conn: ConnectionId, caller: int, now: Time)
    requires RegistryWellFormed(hub)
    ensures RegistryWellFormed(ConnectionClosed(db, hub, conn, caller, now).hub)
  {
  }

  /** A new connection joins only the groups of conversations its user is an
      active member of, and its owner is registered, so the groups still
      match. */
  lemma ConnectKeepsGroupsMatch(db: Db, hub: Hub, conn: ConnectionId, caller: int, now: Time)
    requires GroupsMatch(db, hub)
    ensures var s := OnConnected(db, hub, conn, caller, now); GroupsMatch(s.db, s.hub)
  {
    var s := OnConnected(db, hub, conn, caller, now);
    if caller > 0 {
      ConnectKeepsOwners(db, hub, conn, caller, now);
      assert s.db.members == db.members;
      forall c, x | x in GroupOf(s.hub, c) ensures exists u :: Owns(s.hub, u, x) && IsActive(s.db, c, u) {
        if x in GroupOf(hub, c) {
          var u :| Owns(hub, u, x) && IsActive(db, c, u);
          assert Owns(s.hub, u, x);
        } else {
          assert Owns(s.hub, caller, x) && IsActive(s.db, c, caller);
        }
      }
    }
  }

  /** Connecting keeps every connection's owner and registers the new one
      to the caller. */
  lemma ConnectKeepsOwners(db: Db, hub: Hub, conn: ConnectionId, caller: int, now: Time)
    requires caller > 0
    ensures var s := OnConnected(db, hub, conn, caller, now);
      && Owns(s.hub, caller, conn)
      && forall u, x :: Owns(hub, u, x) ==> Owns(s.hub, u, x)
  {
  }

  lemma CloseKeepsGroupsMatch(db: Db, hub: Hub, conn: ConnectionId, caller: int, now: Time)
    requires GroupsMatch(db, hub)
    ensures var s := ConnectionClosed(db, hub, conn, caller, now); GroupsMatch(s.db, s.hub)
  {
    var s := ConnectionClosed(db, hub, conn, caller, now);
    forall c, x | x in GroupOf(s.hub, c) ensures exists u :: Owns(s.hub, u, x) && IsActive(s.db, c, u) {
      assert x in GroupOf(hub, c) && x != conn;
      var u :| Owns(hub, u, x) && IsActive(db, c, u);
      assert Owns(s.hub, u, x);
      assert IsActive(s.db, c, u);
    }
  }

  /** Any step that keeps every active membership active and the registry as
      it is keeps the groups matching. */
  lemma SameMembersKeepGroupsMatch(db: Db, db': Db, hub: Hub)
    requires GroupsMatch(db, hub)
    requires forall c, u :: IsActive(db, c, u) ==> IsActive(db', c, u)
    ensures GroupsMatch(db', hub)
  {
    forall c, x | x in GroupOf(hub, c) ensures exists u :: Owns(hub, u, x) && IsActive(db', c, u) {
      var u :| Owns(hub, u, x) && IsActive(db, c, u);
      assert IsActive(db', c, u);
    }
  }

  /** While the groups match, a chat message reaches only connections of
      active members of its conversation. */
  lemma SendReachesOnlyActiveMembers(db: Db, hub: Hub, conn: ConnectionId, caller: int,
                                      c: ConversationId, text: string, now: Time, d: Delivery)
    requires GroupsMatch(db, hub)
    requires d in SendMessage(db, hub, conn, caller, c, text, now).sent && d.event.ReceiveMessage?
    ensures exists u :: Owns(hub, u, d.to) && IsActive(db, c, u)
  {
    assert d.to in GroupOf(hub, c);
  }

  lemma ConnectKeepsPresence(db: Db, hub: Hub, conn: ConnectionId, caller: int, now: Time)
    requires PresenceAgrees(db, hub)
    ensures var s := OnConnected(db, hub, conn, caller, now); PresenceAgrees(s.db, s.hub)
  {
    var s := OnConnected(db, hub, conn, caller, now);
    if caller > 0 {
      forall u | u in s.db.users ensures s.db.users[u].isOnline <==> u in s.hub.registry {
        if u != caller {
          assert s.db.users[u] == db.users[u];
        }
      }
    }
  }

  lemma CloseKeepsPresence(db: Db, hub: Hub, conn: ConnectionId, caller: int, now: Time)
    requires PresenceAgrees(db, hub)
    ensures var s := ConnectionClosed(db, hub, conn, caller, now); PresenceAgrees(s.db, s.hub)
  {
  }

  /** Connecting again while already online announces "online" again to
      every connection in the user's conversations. */
  lemma ReconnectAnnouncesAgain(db: Db, hub: Hub, conn: ConnectionId, u: UserId, c: ConversationId,
                                x: ConnectionId, now: Time)
    requires u > 0 && u in hub.registry
    requires IsActive(db, c, u) && x in GroupOf(hub, c)
    ensures Delivery(x, UserStatusChanged(u, true, now)) in OnConnected(db, hub, conn, u, now).sent
  {
  }

  /** Closing the connections `xs` of user `u` one after another. */
  function CloseAll(db: Db, hub: Hub, u: UserId, xs: seq<ConnectionId>, now: Time): HubStep
    decreases |xs|
  {
    if xs == [] then HubStep(db, hub, {})
    else
      var s := ConnectionClosed(db, hub, xs[0], u, now);
      var rest := CloseAll(s.db, s.hub, u, xs[1..], now);
      HubStep(rest.db, rest.hub, s.sent + rest.sent)
  }

  /** Closing all of a user's connections takes them offline once: only the
      last close writes the presence and announces, and it announces
      "offline". */
  lemma {:induction false} CloseAllGoesOfflineOnce(db: Db, hub: Hub, u: UserId, xs: seq<ConnectionId>, now: Time)
    requires u > 0 && u in hub.registry && |xs| > 0
    requires hub.registry[u] == set i | 0 <= i < |xs| :: xs[i]
    requires forall i, j :: 0 <= i < j < |xs| ==> xs[i] != xs[j]
    ensures var r := CloseAll(db, hub, u, xs, now);
      && u !in r.hub.registry
      && r.db == SetPresence(db, u, false, now)
      && (forall d :: d in r.sent ==> d.event == UserStatusChanged(u, false, now))
    decreases |xs|
  {
    var s := ConnectionClosed(db, hub, xs[0], u, now);
    var rest := hub.registry[u] - {xs[0]};
    if |xs| == 1 {
      assert rest == {};
      assert CloseAll(s.db, s.hub, u, xs[1..], now) == HubStep(s.db, s.hub, {});
    } else {
      assert xs[1] in rest;
      assert s.db == db && s.sent == {};
      assert s.hub.registry == hub.registry[u := rest];
      assert rest == set i | 0 <= i < |xs[1..]| :: xs[1..][i] by {
        forall y | y in rest ensures y in set i | 0 <= i < |xs[1..]| :: xs[1..][i] {
          var i :| 0 <= i < |xs| && xs[i] == y;
          assert i != 0;
          assert xs[1..][i - 1] == y;
        }
        forall y | y in set i | 0 <= i < |xs[1..]| :: xs[1..][i] ensures y in rest {
          var i :| 0 <= i < |xs[1..]| && xs[1..][i] == y;
          assert xs[i + 1] == y && xs[0] != xs[i + 1];
        }
      }
      CloseAllGoesOfflineOnce(s.db, s.hub, u, xs[1..], now);
    }
  }

  /** Deleting an already deleted message is accepted again: the group is
      told again and the deletion time moves to the second call's time. */
  lemma DeleteTwiceAnnouncesTwice(db: Db, hub: Hub, conn: ConnectionId, u: UserId, id: MessageId,
                                  t1: Time, t2: Time)
    requires u > 0 && id in db.messages && db.messages[id].senderId == u
    ensures var s1 := DeleteMessage(db, hub, conn, u, id, t1);
      var s2 := DeleteMessage(s1.db, s1.hub, conn, u, id, t2);
      && s2.sent == s1.sent
      && s2.sent == SendTo(GroupOf(hub, db.messages[id].conversationId), MessageDeleted(id))
      && s2.db.messages[id].deletedAt == Some(t2)
  {
  }

  /** The hub's edit stores a blank new text as the empty string. */
  lemma HubEditAcceptsBlank(db: Db, hub: Hub, conn: ConnectionId, u: UserId, id: MessageId,
                            newText: string, now: Time)
    requires u > 0 && id in db.messages && db.messages[id].senderId == u
    requires IsBlank(DotNet, newText)
    ensures var s := EditMessage(db, hub, conn, u, id, newText, now);
      s.db.messages[id].text == [] && s.db.messages[id].isEdited
  {
    BlankIffTrimEmpty(DotNet, newText);
  }

  // ---------------------------------------------------------------------
  // The hub's writes keep the store valid.
  // ---------------------------------------------------------------------

  /** A new message gets an identity not yet used, belongs to a
      conversation the sender is an active member of, and starts with
      consistent flags. */
  lemma SendKeepsValid(db: Db, hub: Hub, conn: ConnectionId, caller: int, c: ConversationId,
                       text: string, now: Time)
    requires Valid(db)
    ensures Valid(SendMessage(db, hub, conn, caller, c, text, now).db)
  {
    if caller > 0 && IsActive(db, c, caller) && !IsBlank(DotNet, text) && caller in db.users {
      PostKeepsValid(db, c, caller, Trim(DotNet, text), now);
    }
  }

  /** Storing a message from an active member keeps the store valid. */
  lemma {:induction false} PostKeepsValid(db: Db, c: ConversationId, caller: UserId, body: string, now: Time)
    requires Valid(db) && IsActive(db, c, caller) && caller in db.users
    ensures Valid(PostMessage(db, c, caller, body, now))
  {
    var m := NewMessage(c, caller, body, now);
    assert (c, caller) in db.members;
    assert MessageFits(db, m);
    InsertMessageKeepsValid(db, m);
    TouchKeepsValid(InsertMessage(db, m), c, now);
  }

  lemma ReactKeepsValid(db: Db, hub: Hub, caller: int, id: MessageId, kind: string, now: Time)
    requires Valid(db)
    ensures Valid(ReactToMessage(db, hub, caller, id, kind, now).db)
  {
    if caller > 0 && id in db.messages && (caller in db.users || (id, caller) in db.reactions) {
      MessageOps.ToggleKeepsValid(db, id, caller, kind, now);
    }
  }

  lemma EditKeepsValid(db: Db, hub: Hub, conn: ConnectionId, caller: int, id: MessageId,
                       newText: string, now: Time)
    requires Valid(db)
    ensures Valid(EditMessage(db, hub, conn, caller, id, newText, now).db)
  {
    if caller > 0 && id in db.messages && db.messages[id].senderId == caller {
      MessageOps.ApplyEditKeepsValid(db, id, Trim(DotNet, newText), now);
    }
  }

  lemma DeleteKeepsValid(db: Db, hub: Hub, conn: ConnectionId, caller: int, id: MessageId, now: Time)
    requires Valid(db)
    ensures Valid(DeleteMessage(db, hub, conn, caller, id, now).db)
  {
    if caller > 0 && id in db.messages && db.messages[id].senderId == caller {
      MessageOps.ApplyDeleteKeepsValid(db, id, caller, now);
    }
  }

  lemma MarkAsReadKeepsValid(db: Db, hub: Hub, caller: int, c: ConversationId, now: Time)
    requires Valid(db)
    ensures Valid(MarkAsRead(db, hub, caller, c, now).db)
  {
  }

  lemma ConnectKeepsValid(db: Db, hub: Hub, conn: ConnectionId, caller: int, now: Time)
    requires Valid(db)
    ensures Valid(OnConnected(db, hub, conn, caller, now).db)
  {
    if caller > 0 { PresenceKeepsValid(db, caller, true, now); }
  }

  lemma CloseKeepsValid(db: Db, hub: Hub, conn: ConnectionId, caller: int, now: Time)
    requires Valid(db)
    ensures Valid(ConnectionClosed(db, hub, conn, caller, now).db)
  {
    if caller > 0 { PresenceKeepsValid(db, caller, false, now); }
  }
}
