# ChatApp core, modelled in Dafny

ChatApp is an ASP.NET Core chat application. Users register and sign in. They
befriend each other through friend requests, with an automatic one-to-one
conversation on acceptance. They create and administer group conversations,
and they send, edit, delete, pin, react to and save messages. Messages travel
two ways: through the SignalR hub `ChatHub` (live delivery to per-conversation
broadcast groups) and through the MVC `ChatController` (form posts answered
with JSON).

This project models the state machine behind both paths:

- **Store** (`store.dfy`). The database is one immutable `Db` record, with one
  datatype per table. A table with a unique index is a map keyed by that index,
  so "at most one row per key" is the shape of the data. `Valid` collects what
  the schema and the operations promise:
  - fresh identities;
  - unique usernames and emails;
  - the foreign keys;
  - the edited/deleted/pinned flags agreeing with their columns;
  - symmetric friend edges;
  - friend requests agreeing with the friend edges.
- **Authorisation** (`access.dfy`). `CurrentUserId`, the login gate
  `OnActionExecuting`, and the predicates `IsFriend`, `IsConversationAdmin` and
  `IsConversationMember`. Every controller answer is an `Outcome`: `Success`,
  a `Failure` with the reason the JSON reports, or `Fault` for a save the
  database refuses.
- **Hub** (`hub.dfy`). Each callback is one atomic step from a store, a
  connection registry and the broadcast groups to a new store, registry and
  groups, plus the set of deliveries it made.
- **Controller actions**:
  - message edits with history, soft delete and pin toggles (`message_ops.dfy`);
  - the controller's message actions (`message_actions.dfy`);
  - conversation flags and group administration (`group_actions.dfy`);
  - the friend-request state machine and the relationship classifier
    (`friend_actions.dfy`);
  - the ordered conversation list with unread counts (`conversation_list.dfy`);
  - the gate in front of every action (`controller.dfy`).
- **Authentication** (`auth.dfy`): registration, login and logout.
- **Client script** (`client_script.dfy`): `escapeHtml` and the threshold rule
  of `handleSearchInput` from `chat.js`.
- **Whitespace** (`text.dfy`). Both .NET `Trim`/`IsNullOrWhiteSpace` and
  JavaScript `trim` are modelled, each with its own whitespace set.

Every operation that writes the store has a lemma saying it keeps `Valid`,
whatever it answers. `Controller.DispatchKeepsValid` combines them over every
modelled request.

Where the code and the intended design differ, the model follows the code:
- A connection announces "online" every time it connects, not only the first
  time.
- The hub's edit accepts blank text.
- Deleting an already-deleted message is accepted and announced again.
- A sole admin cannot leave, even from a group with no other members left.
- `IsConversationMember` and `IsConversationAdmin` ignore soft deletion.
- Controller membership changes do not update the hub's broadcast groups.
- Login and logout set the online flag without going through the hub.

Each of these is stated as a lemma.

Source paths below are relative to the repository root.

## Model

| member | source | states |
|---|---|---|
| Access.CurrentUserId | ChatApp/ChatApp/Controllers/BaseController.cs:17-24 | the id is the session's `UserId` when present; it is 0 exactly when the session holds none or holds 0 |
| Access.OnActionExecuting | ChatApp/ChatApp/Controllers/BaseController.cs:67-84 | a request without a session user is redirected to the login page; otherwise the action proceeds with `CurrentUserId` as the caller |
| Access.SoftDeleteKeepsAuthorisation | ChatApp/ChatApp/Controllers/BaseController.cs:130-145 | soft-deleting a membership row leaves the user a member in the sense of `IsConversationMember` and leaves `IsConversationAdmin` unchanged, although the user is no longer active |
| Access.FriendTestDirected | ChatApp/ChatApp/Controllers/BaseController.cs:121-125 | `IsFriend` tests only the directed edge: a store holding the edge 1→2 alone makes 1 a friend of 2 but not 2 of 1 |
| Access.FriendSymmetricWhenValid | ChatApp/ChatApp/Controllers/BaseController.cs:121-125 | in a valid store, where edges come in pairs, `IsFriend` is symmetric |
| Controller.Dispatch | ChatApp/ChatApp/Controllers/BaseController.cs:67-84 | an unauthenticated request gets the login redirect and leaves the store unchanged; an authenticated one runs the action for the session's user and answers with its outcome |
| Controller.ZeroSessionPassesTheGate | ChatApp/ChatApp/Controllers/BaseController.cs:17-24 | a session holding user id 0 passes the gate, although `CurrentUserId` then equals that of an empty session |
| Controller.PerformKeepsValid | ChatApp/ChatApp/Controllers/ChatController.cs:139-708 | every modelled message, conversation, group and friend action keeps the store valid, whatever it answers |
| Controller.MessageRequestKeepsValid | ChatApp/ChatApp/Controllers/ChatController.cs:139-337 | each message action keeps the store valid |
| Controller.ConversationRequestKeepsValid | ChatApp/ChatApp/Controllers/ChatController.cs:342-404 | pin, archive, delete-for-me and leave keep the store valid |
| Controller.GroupRequestKeepsValid | ChatApp/ChatApp/Controllers/ChatController.cs:410-708 | group creation, rename and administration keep the store valid |
| Controller.FriendshipRequestKeepsValid | ChatApp/ChatApp/Controllers/ChatController.cs:1125-1290 | sending, cancelling and accepting friend requests keep the store valid |
| Controller.DispatchKeepsValid | ChatApp/ChatApp/Controllers/BaseController.cs:67-84 | any request, signed in or not, keeps the store valid |
| Controller.RemovedMemberStillReceives | ChatApp/ChatApp/Controllers/ChatController.cs:576-602 | after an admin removes a member, a connection the removed user opened earlier still receives the next message sent to the conversation, because removal never touches the hub's groups |
| Store.ActiveConversations | ChatApp/ChatApp/Hubs/ChatHub.cs:42-45 | the conversations a user has a membership row in with no `DeletedAt` |
| Store.SetPresence | ChatApp/ChatApp/Hubs/ChatHub.cs:32-38 | only the user's `IsOnline` and `LastSeen` change, and only when the user row exists |
| Store.EmptyDbValid | ChatApp/ChatApp/Models/ChatAppContext.cs:76-292 | the empty store satisfies every invariant |
| Store.PresenceKeepsValid | ChatApp/ChatApp/Hubs/ChatHub.cs:32-38 | changing presence keeps the store valid |
| Store.InsertMessageKeepsValid | ChatApp/ChatApp/Models/ChatAppContext.cs:182-195 | inserting a message under the next identity, into an existing conversation and by an existing sender, keeps the store valid |
| Store.UpdateMessageKeepsValid | ChatApp/ChatApp/Models/ChatAppContext.cs:182-195 | overwriting a message row with one whose references exist and whose flags agree keeps the store valid |
| Store.TouchKeepsValid | ChatApp/ChatApp/Hubs/ChatHub.cs:121-122 | bumping a conversation's `UpdatedAt` keeps the store valid |
| Text.Trim | ChatApp/ChatApp/Hubs/ChatHub.cs:116 | the trimmed string is the slice of the input between the leading and trailing whitespace runs; it neither starts nor ends with whitespace |
| Text.BlankIffTrimEmpty | ChatApp/ChatApp/Hubs/ChatHub.cs:106 | a string is null-or-whitespace exactly when its trim is empty |
| Text.TrimIdempotent | ChatApp/ChatApp/Hubs/ChatHub.cs:116 | trimming twice is trimming once |
| ChatHub.HubCallerId | ChatApp/ChatApp/Hubs/ChatHub.cs:325-356 | a positive session id wins; otherwise a parsable claim is used, even a non-positive one; otherwise 0 |
| ChatHub.SendTo | ChatApp/ChatApp/Hubs/ChatHub.cs:152 | sending to a group delivers the event to exactly its connections |
| ChatHub.StatusAudience | ChatApp/ChatApp/Hubs/ChatHub.cs:358-374 | a status notice reaches exactly the connections in the groups of the conversations the user is active in |
| ChatHub.JoinGroups | ChatApp/ChatApp/Hubs/ChatHub.cs:47-50 | the connection is added to each listed group, creating absent groups; other groups are unchanged |
| ChatHub.OnConnected | ChatApp/ChatApp/Hubs/ChatHub.cs:18-54 | with a caller id ≤ 0 nothing changes. Otherwise the connection joins the caller's registry entry, with other users' entries untouched, and the caller goes online. The "online" notice reaches the groups of the caller's active conversations as they were before the join. The connection joins exactly the groups of those conversations. |
| ChatHub.OnDisconnected | ChatApp/ChatApp/Hubs/ChatHub.cs:56-83 | with a caller id ≤ 0, or no entry, nothing changes. If other connections remain, only the connection is removed. When the last one goes, the entry is deleted, the user goes offline and the "offline" notice is sent. |
| ChatHub.LeaveAllGroups | ChatApp/ChatApp/Hubs/ChatHub.cs:82 | a closed connection leaves every group, and the registry is unchanged |
| ChatHub.ConnectionClosed | ChatApp/ChatApp/Hubs/ChatHub.cs:56-83 | a closed connection is `OnDisconnected` followed by the framework removing the connection from every group |
| ChatHub.PostMessage | ChatApp/ChatApp/Hubs/ChatHub.cs:112-124 | the new message is stored under the next identity, the conversation's `UpdatedAt` is bumped if it exists, and nothing else changes |
| ChatHub.SendMessage | ChatApp/ChatApp/Hubs/ChatHub.cs:86-156 | a caller ≤ 0, a caller who is not an active member and blank text each get an error to the caller only and change nothing. Otherwise the trimmed text is stored and delivered to exactly the conversation's group. |
| ChatHub.ReactToMessage | ChatApp/ChatApp/Hubs/ChatHub.cs:159-210 | a caller ≤ 0 or a missing message does nothing. Otherwise the reaction toggles and the regrouped reactions go to the conversation's group. |
| ChatHub.EditMessage | ChatApp/ChatApp/Hubs/ChatHub.cs:213-245 | a caller ≤ 0 does nothing. A missing message or a non-sender gets a caller-only error. Otherwise the old text goes to the edit history and the trimmed text (blank or not) is stored and broadcast. |
| ChatHub.DeleteMessage | ChatApp/ChatApp/Hubs/ChatHub.cs:248-270 | a caller ≤ 0 does nothing. A missing message or a non-sender gets a caller-only error. Otherwise `IsDeleted`, `DeletedAt` and `DeletedBy` are set, even on a deleted message, and the deletion is broadcast. |
| ChatHub.UserTypingStep | ChatApp/ChatApp/Hubs/ChatHub.cs:273-287 | with a caller > 0 who has a user row, the typing notice goes to the conversation's group minus the caller's connection; otherwise nothing is sent; the store and hub are untouched |
| ChatHub.UserStoppedTypingStep | ChatApp/ChatApp/Hubs/ChatHub.cs:289-299 | with a caller > 0 the stop notice goes to the group minus the caller's connection; nothing changes |
| ChatHub.MarkAsRead | ChatApp/ChatApp/Hubs/ChatHub.cs:302-322 | with a caller > 0 who has a membership row (soft-deleted or not), only that row's `LastReadAt` changes and a read receipt goes to the group; otherwise nothing happens |
| HubProperties.ConnectKeepsRegistryWellFormed | ChatApp/ChatApp/Hubs/ChatHub.cs:21-30 | after a connect, every registered user still has a positive id and a non-empty set of connections |
| HubProperties.CloseKeepsRegistryWellFormed | ChatApp/ChatApp/Hubs/ChatHub.cs:61-78 | after a disconnect, the same holds: an entry whose last connection closes is removed, not left empty |
| HubProperties.ConnectKeepsGroupsMatch | ChatApp/ChatApp/Hubs/ChatHub.cs:42-50 | if every connection in a conversation's group belongs to a registered active member of it, that still holds after a connect |
| HubProperties.CloseKeepsGroupsMatch | ChatApp/ChatApp/Hubs/ChatHub.cs:56-83 | a disconnect keeps every group connection owned by an active member |
| HubProperties.SendReachesOnlyActiveMembers | ChatApp/ChatApp/Hubs/ChatHub.cs:152 | while groups match memberships, every message delivery reaches a connection of an active member |
| HubProperties.ConnectKeepsPresence | ChatApp/ChatApp/Hubs/ChatHub.cs:21-38 | if the online flag agrees with having a registry entry, that still holds after a connect |
| HubProperties.CloseKeepsPresence | ChatApp/ChatApp/Hubs/ChatHub.cs:61-75 | the same agreement holds after a disconnect |
| HubProperties.ReconnectAnnouncesAgain | ChatApp/ChatApp/Hubs/ChatHub.cs:40 | a user who already has connections announces "online" again on every new connection |
| HubProperties.CloseAllGoesOfflineOnce | ChatApp/ChatApp/Hubs/ChatHub.cs:61-78 | closing all of a user's connections one by one removes the entry, sets them offline and sends nothing but "offline" notices |
| HubProperties.DeleteTwiceAnnouncesTwice | ChatApp/ChatApp/Hubs/ChatHub.cs:253-269 | deleting an already-deleted message is accepted, moves `DeletedAt` and is broadcast again |
| HubProperties.HubEditAcceptsBlank | ChatApp/ChatApp/Hubs/ChatHub.cs:233 | the hub's edit stores an empty text for blank input and marks the message edited |
| HubProperties.SendKeepsValid | ChatApp/ChatApp/Hubs/ChatHub.cs:86-156 | sending keeps the store valid |
| HubProperties.PostKeepsValid | ChatApp/ChatApp/Hubs/ChatHub.cs:112-124 | storing a message by an active member with a user row keeps the store valid |
| HubProperties.ReactKeepsValid | ChatApp/ChatApp/Hubs/ChatHub.cs:159-210 | reacting keeps the store valid |
| HubProperties.EditKeepsValid | ChatApp/ChatApp/Hubs/ChatHub.cs:213-245 | editing keeps the store valid |
| HubProperties.DeleteKeepsValid | ChatApp/ChatApp/Hubs/ChatHub.cs:248-270 | deleting keeps the store valid |
| HubProperties.MarkAsReadKeepsValid | ChatApp/ChatApp/Hubs/ChatHub.cs:302-322 | marking as read keeps the store valid |
| HubProperties.ConnectKeepsValid | ChatApp/ChatApp/Hubs/ChatHub.cs:18-54 | connecting keeps the store valid |
| HubProperties.CloseKeepsValid | ChatApp/ChatApp/Hubs/ChatHub.cs:56-83 | disconnecting keeps the store valid |
| MessageOps.ApplyEdit | ChatApp/ChatApp/Controllers/ChatController.cs:159-170 | the old text is appended to the edit history. Only the message's text, `IsEdited` and `EditedAt` change. |
| MessageOps.ApplyDelete | ChatApp/ChatApp/Controllers/ChatController.cs:195-197 | only the message's `IsDeleted`, `DeletedAt` and `DeletedBy` change; its text stays |
| MessageOps.TogglePin | ChatApp/ChatApp/Controllers/ChatController.cs:221-223 | `IsPinned` flips; `PinnedAt` and `PinnedBy` are set exactly when it is now pinned; nothing else in the row changes |
| MessageOps.ToggleReaction | ChatApp/ChatApp/Controllers/ChatController.cs:248-282 | a reaction of the same kind is removed and reported as removed; otherwise the user's single reaction becomes this kind, by replacing or by adding |
| MessageOps.ToggleMovesOneUser | ChatApp/ChatApp/Hubs/ChatHub.cs:167-189 | a toggle moves exactly the caller into or out of the kind's set of reacting users, removes them from every other kind, and leaves other messages alone |
| MessageOps.ToggleTwiceRestores | ChatApp/ChatApp/Hubs/ChatHub.cs:170-189 | from no reaction by that user on that message, toggling the same kind twice restores the reactions table |
| MessageOps.UsersWith | ChatApp/ChatApp/Hubs/ChatHub.cs:200 | the users whose reaction to the message has the given kind |
| MessageOps.KindsOn | ChatApp/ChatApp/Hubs/ChatHub.cs:195 | the kinds some user reacted with on the message |
| MessageOps.ReactionGroups | ChatApp/ChatApp/Hubs/ChatHub.cs:193-202 | one group per kind present. Each count equals the number of its user ids, which are exactly that kind's users. Every reaction appears in its kind's group. |
| MessageOps.ApplyEditKeepsValid | ChatApp/ChatApp/Models/ChatAppContext.cs:212 | an edit with its history row keeps the store valid |
| MessageOps.ApplyDeleteKeepsValid | ChatApp/ChatApp/Models/ChatAppContext.cs:186 | a soft delete by an existing user keeps the store valid |
| MessageOps.TogglePinKeepsValid | ChatApp/ChatApp/Models/ChatAppContext.cs:190 | a pin toggle by an existing user keeps the store valid |
| MessageOps.ToggleKeepsValid | ChatApp/ChatApp/Models/ChatAppContext.cs:220-233 | a reaction toggle on an existing message keeps the store valid, given the user exists or already has a row there |
| MessageActions.EditMessage | ChatApp/ChatApp/Controllers/ChatController.cs:139-175 | a missing message, a non-sender and blank text are refused, in that order, with the store unchanged; a success stores the trimmed, non-empty text with history |
| MessageActions.DeleteMessage | ChatApp/ChatApp/Controllers/ChatController.cs:180-202 | a missing message and a non-sender are refused; otherwise the message is soft-deleted by the caller |
| MessageActions.PinMessage | ChatApp/ChatApp/Controllers/ChatController.cs:207-233 | a missing message and a caller who is not an admin of its conversation are refused; otherwise the pin toggles and the new state is reported |
| MessageActions.ReactMessage | ChatApp/ChatApp/Controllers/ChatController.cs:238-283 | a missing message is refused. A new reaction by a caller without a user row faults. Otherwise the reaction toggles and `removed` is reported. |
| MessageActions.SaveMessage | ChatApp/ChatApp/Controllers/ChatController.cs:288-318 | a missing message and an already-saved one are refused; a caller without a user row faults; otherwise exactly one saved row is added |
| MessageActions.UnsaveMessage | ChatApp/ChatApp/Controllers/ChatController.cs:323-337 | an unsaved message is refused; otherwise exactly its saved row is removed |
| MessageActions.SaveThenUnsaveRestores | ChatApp/ChatApp/Controllers/ChatController.cs:288-337 | saving and then unsaving a message restores the store |
| MessageActions.PinTwiceRestores | ChatApp/ChatApp/Controllers/ChatController.cs:207-233 | pinning an unpinned message twice reports true then false and restores the store |
| MessageActions.EditAgreesWithHubUnlessBlank | ChatApp/ChatApp/Controllers/ChatController.cs:153-170 | the controller's edit and the hub's edit write the same store for non-blank text; for blank text the controller refuses while the hub would store an empty text |
| MessageActions.EditKeepsValid | ChatApp/ChatApp/Controllers/ChatController.cs:139-175 | editing keeps the store valid |
| MessageActions.DeleteKeepsValid | ChatApp/ChatApp/Controllers/ChatController.cs:180-202 | deleting keeps the store valid |
| MessageActions.PinKeepsValid | ChatApp/ChatApp/Controllers/ChatController.cs:207-233 | pinning keeps the store valid |
| MessageActions.ReactKeepsValid | ChatApp/ChatApp/Controllers/ChatController.cs:238-283 | reacting keeps the store valid |
| MessageActions.SaveKeepsValid | ChatApp/ChatApp/Controllers/ChatController.cs:288-318 | saving keeps the store valid |
| MessageActions.UnsaveKeepsValid | ChatApp/ChatApp/Controllers/ChatController.cs:323-337 | unsaving keeps the store valid |
| GroupActions.PinConversation | ChatApp/ChatApp/Controllers/ChatController.cs:342-361 | a caller without a membership row is refused; otherwise only the caller's `IsPinned` flips and the new state is reported |
| GroupActions.ArchiveConversation | ChatApp/ChatApp/Controllers/ChatController.cs:366-385 | a caller without a membership row is refused; otherwise only the caller's `IsArchived` flips and the new state is reported |
| GroupActions.DeleteConversation | ChatApp/ChatApp/Controllers/ChatController.cs:390-404 | a caller without a membership row is refused; otherwise only the caller's row is soft-deleted |
| GroupActions.Invitees | ChatApp/ChatApp/Controllers/ChatController.cs:423 | the distinct chosen ids other than the creator |
| GroupActions.GroupRows | ChatApp/ChatApp/Controllers/ChatController.cs:450-469 | one row for the creator, as admin, and one non-admin row per invitee, all joined now |
| GroupActions.CreateGroup | ChatApp/ChatApp/Controllers/ChatController.cs:410-480 | refuses a blank name, an empty list and fewer than two invitees, in that order. A success saves the group under the next identity with the trimmed name, then the member rows. A missing creator faults with nothing saved; a missing invitee faults with the group saved and no members. |
| GroupActions.CreateGroupMembership | ChatApp/ChatApp/Controllers/ChatController.cs:423-469 | in a valid store a created group has exactly the creator and the invitees as members, 1 + the number of invitees ≥ 3 in all, all active, with the creator the only admin |
| GroupActions.NewGroupMembership | ChatApp/ChatApp/Controllers/ChatController.cs:423-469 | when no membership row uses the next conversation id, a created group has exactly the creator and the invitees as members, 1 + the number of invitees ≥ 3 in all, all active, with the creator the only admin |
| GroupActions.UpdateConversationName | ChatApp/ChatApp/Controllers/ChatController.cs:498-521 | a non-admin, a blank name and a missing conversation are refused, in that order; a success stores the trimmed name and bumps `UpdatedAt` |
| GroupActions.AddMember | ChatApp/ChatApp/Controllers/ChatController.cs:526-571 | a non-admin caller, a non-group and an active target are refused, in that order. A soft-deleted row is restored (`DeletedAt` cleared, `JoinedAt` reset); otherwise a non-admin row is inserted. A target with neither a row nor a user row faults. |
| GroupActions.RemoveMember | ChatApp/ChatApp/Controllers/ChatController.cs:576-602 | a non-admin caller, a self-target and a target without a row are refused; otherwise only the target's row is soft-deleted |
| GroupActions.OtherActiveAdmins | ChatApp/ChatApp/Controllers/ChatController.cs:627-628 | the active admins of the conversation other than the given user |
| GroupActions.LeaveGroup | ChatApp/ChatApp/Controllers/ChatController.cs:607-644 | a non-member, a non-group and an admin with no other active admin are refused; otherwise only the caller's row is soft-deleted |
| GroupActions.PromoteToAdmin | ChatApp/ChatApp/Controllers/ChatController.cs:649-673 | a non-admin caller, a target without a row and a target who is already admin are refused; otherwise only the target's `IsAdmin` becomes true |
| GroupActions.DemoteFromAdmin | ChatApp/ChatApp/Controllers/ChatController.cs:678-708 | a non-admin caller, a self-target, a target without a row and a target who is not admin are refused; otherwise only the target's `IsAdmin` becomes false |
| GroupProperties.LeaveKeepsAnActiveAdmin | ChatApp/ChatApp/Controllers/ChatController.cs:627-640 | when an admin leaves successfully, another active admin remains |
| GroupProperties.LoneAdminCannotLeave | ChatApp/ChatApp/Controllers/ChatController.cs:627-637 | an admin with no other active admin is refused even when no other active member remains |
| GroupProperties.LeftAdminCanRejoin | ChatApp/ChatApp/Controllers/ChatController.cs:526-570 | an admin who left is still an admin by `IsConversationAdmin`, so they can add themselves back and become an active admin again |
| GroupProperties.RemovedAdminCanRemoveBack | ChatApp/ChatApp/Controllers/ChatController.cs:576-602 | an admin removed by another admin can still remove that admin, because the check ignores soft deletion |
| GroupProperties.RestoredMemberKeepsAdminFlag | ChatApp/ChatApp/Controllers/ChatController.cs:548-552 | restoring a soft-deleted member keeps their old admin flag |
| GroupProperties.GroupCanLoseAllActiveAdmins | ChatApp/ChatApp/Controllers/ChatController.cs:678-708 | a soft-deleted admin can demote the last active admin, leaving the group with none |
| GroupProperties.PromoteThenDemoteRestores | ChatApp/ChatApp/Controllers/ChatController.cs:649-708 | promoting a non-admin member and then demoting them restores the store |
| GroupProperties.PinConversationTwiceRestores | ChatApp/ChatApp/Controllers/ChatController.cs:352 | pinning a conversation twice restores the store |
| GroupProperties.ArchiveTwiceRestores | ChatApp/ChatApp/Controllers/ChatController.cs:376 | archiving a conversation twice restores the store |
| GroupProperties.PinConversationKeepsValid | ChatApp/ChatApp/Controllers/ChatController.cs:342-361 | pinning a conversation keeps the store valid |
| GroupProperties.ArchiveConversationKeepsValid | ChatApp/ChatApp/Controllers/ChatController.cs:366-385 | archiving keeps the store valid |
| GroupProperties.DeleteConversationKeepsValid | ChatApp/ChatApp/Controllers/ChatController.cs:390-404 | deleting a conversation for oneself keeps the store valid |
| GroupProperties.LeaveKeepsValid | ChatApp/ChatApp/Controllers/ChatController.cs:607-644 | leaving keeps the store valid |
| GroupProperties.RemoveMemberKeepsValid | ChatApp/ChatApp/Controllers/ChatController.cs:576-602 | removing a member keeps the store valid |
| GroupProperties.PromoteKeepsValid | ChatApp/ChatApp/Controllers/ChatController.cs:649-673 | promoting keeps the store valid |
| GroupProperties.DemoteKeepsValid | ChatApp/ChatApp/Controllers/ChatController.cs:678-708 | demoting keeps the store valid |
| GroupProperties.AddMemberKeepsValid | ChatApp/ChatApp/Controllers/ChatController.cs:526-571 | adding or restoring a member keeps the store valid: a restore never inserts a second row |
| GroupProperties.RenameKeepsValid | ChatApp/ChatApp/Controllers/ChatController.cs:498-521 | renaming keeps the store valid |
| GroupProperties.CreateGroupKeepsValid | ChatApp/ChatApp/Controllers/ChatController.cs:410-480 | creating a group keeps the store valid, faults included |
| FriendActions.RelationshipStatus | ChatApp/ChatApp/Controllers/ChatController.cs:1108-1120 | friend wins over a sent request, which wins over a received one; otherwise none |
| FriendActions.StatusUnambiguous | ChatApp/ChatApp/Controllers/ChatController.cs:1108-1120 | in a valid store the priority never decides: each status holds exactly when its own fact holds |
| FriendActions.StatusMirrors | ChatApp/ChatApp/Controllers/ChatController.cs:1108-1120 | in a valid store, B's status towards A is A's towards B with sent and received swapped |
| FriendActions.SendFriendRequest | ChatApp/ChatApp/Controllers/ChatController.cs:1125-1264 | refuses, in order: oneself, a missing receiver, an existing friend edge, a pending request already sent. A crossed pending request is accepted instead, with exactly the effect of `Befriend`. Otherwise exactly one pending request and one notification are added, unless the caller has no user row or an older request row holds the key, which faults and writes nothing. |
| FriendActions.Befriend | ChatApp/ChatApp/Controllers/ChatController.cs:1164-1231 | the request is marked accepted at `now`; both friend edges, one direct conversation under the next id and its two non-admin member rows are added; the sender is notified; no other row of any table changes. The first save's fault writes nothing, the second's leaves the first save |
| FriendActions.AcceptanceSaved | ChatApp/ChatApp/Controllers/ChatController.cs:1167-1195 | the first save of an acceptance: the request accepted, both edges, and the conversation under the next identity |
| FriendActions.AcceptFriendRequest | ChatApp/ChatApp/Controllers/ChatController.cs:1474-1553 | without a pending request from the sender, the request is refused and nothing changes; otherwise the effect is exactly `Befriend`: the two become friends both ways, the request is accepted, a direct conversation is opened and the sender is notified |
| FriendActions.CancelFriendRequest | ChatApp/ChatApp/Controllers/ChatController.cs:1269-1290 | without a pending request to the receiver, the request is refused; otherwise exactly that request row is removed |
| FriendActions.ReportedStatusHolds | ChatApp/ChatApp/Controllers/ChatController.cs:1226-1262 | in a valid store, the relationship status each friend action reports is the classifier's status in the new store |
| FriendActions.AcceptanceMembership | ChatApp/ChatApp/Controllers/ChatController.cs:1486-1545 | in a valid store an acceptance succeeds and the new conversation's members are exactly the two users, both active and neither an admin |
| FriendActions.CrossedSendAccepts | ChatApp/ChatApp/Controllers/ChatController.cs:1158-1240 | in a valid store, sending a request to a user who has a pending request to the caller has the same outcome and store as accepting that request |
| FriendActions.AcceptNeverFaults | ChatApp/ChatApp/Controllers/ChatController.cs:1474-1553 | in a valid store, accepting a pending request always succeeds |
| FriendActions.SendThenCancelLeavesNotification | ChatApp/ChatApp/Controllers/ChatController.cs:1235-1281 | sending a request and cancelling it restores the store except for the notification, which stays |
| FriendActions.BefriendKeepsValid | ChatApp/ChatApp/Controllers/ChatController.cs:1164-1231 | an acceptance keeps the store valid |
| FriendActions.SendKeepsValid | ChatApp/ChatApp/Controllers/ChatController.cs:1125-1264 | sending a friend request keeps the store valid |
| FriendActions.AcceptKeepsValid | ChatApp/ChatApp/Controllers/ChatController.cs:1474-1553 | accepting keeps the store valid |
| FriendActions.CancelKeepsValid | ChatApp/ChatApp/Controllers/ChatController.cs:1269-1290 | cancelling keeps the store valid |
| ConversationList.UnreadMessages | ChatApp/ChatApp/Controllers/ChatController.cs:920-929 | the unread messages are exactly the conversation's undeleted messages from others sent after `LastReadAt` and after the row's `DeletedAt`, each when set |
| ConversationList.VisibleMessages | ChatApp/ChatApp/Controllers/ChatController.cs:882-888 | the conversation's undeleted messages |
| ConversationList.Latest | ChatApp/ChatApp/Controllers/ChatController.cs:887 | the chosen last message is among the candidates and none was sent later |
| ConversationList.ActiveMembers | ChatApp/ChatApp/Controllers/ChatController.cs:875-879 | the users with an active membership row |
| ConversationList.SummaryFor | ChatApp/ChatApp/Controllers/ChatController.cs:893-954 | the summary built for a conversation describes it: its flags, timestamps, active members, last message and unread count |
| ConversationList.Insert | ChatApp/ChatApp/Controllers/ChatController.cs:959-962 | inserting into a sorted list keeps it sorted and adds exactly the one summary |
| ConversationList.InsertIds | ChatApp/ChatApp/Controllers/ChatController.cs:959-962 | insertion adds exactly the summary's conversation to the ids listed |
| ConversationList.SortedSummaries | ChatApp/ChatApp/Controllers/ChatController.cs:893-962 | the sorted list has one summary per active conversation, each describing its conversation |
| ConversationList.ConversationsOf | ChatApp/ChatApp/Controllers/ChatController.cs:852-977 | the list holds each active conversation exactly once, pinned ones first, and within equal pin state by `UpdatedAt` descending. If a membership row names a conversation that is not stored, the list is empty (the caught failure). |
| ConversationList.SortedMeansPinnedFirst | ChatApp/ChatApp/Controllers/ChatController.cs:959-962 | a sorted list puts every pinned conversation before every unpinned one and orders equal pin states by `UpdatedAt` descending |
| ConversationList.SizeMeansDistinct | ChatApp/ChatApp/Controllers/ChatController.cs:893-954 | a list as long as its set of ids lists no conversation twice |
| ConversationList.MarkAsReadClearsUnread | ChatApp/ChatApp/Hubs/ChatHub.cs:302-322 | after marking as read, the reader has no unread messages there, and other members' unread sets are unchanged |
| ConversationList.SendAddsUnread | ChatApp/ChatApp/Hubs/ChatHub.cs:112-124 | a new message adds exactly one unread message for every other member whose `LastReadAt` and `DeletedAt`, when set, precede the send, and none for the sender |
| Auth.LoginForm | ChatApp/ChatApp/Controllers/AuthController.cs:20-28 | a signed-in user is sent to the chat; anyone else gets the empty login form |
| Auth.RegisterForm | ChatApp/ChatApp/Controllers/AuthController.cs:70-78 | a signed-in user is sent to the chat; anyone else gets the empty registration form |
| Auth.Login | ChatApp/ChatApp/Controllers/AuthController.cs:33-66 | an empty username or password is refused before any lookup. Login succeeds exactly when some user has that username and the digest of that password. A success stores that user's id in the session and marks them online; a failure changes nothing. |
| Auth.CredentialsIdentifyOneUser | ChatApp/ChatApp/Controllers/AuthController.cs:45-46 | in a valid store at most one user matches a username and password |
| Auth.Register | ChatApp/ChatApp/Controllers/AuthController.cs:83-137 | refuses, in order: a missing field, a mismatched confirmation, a password under 6 characters, a taken username, a taken email. A success adds exactly one offline user, with the password's digest and the default avatar, under the next identity. |
| Auth.RegisterKeepsValid | ChatApp/ChatApp/Controllers/AuthController.cs:83-137 | registering keeps the store valid, usernames and emails unique |
| Auth.RegisteredUserCanLogIn | ChatApp/ChatApp/Controllers/AuthController.cs:120-133 | after a registration, the new user is the one and only row the same username and password match |
| Auth.Logout | ChatApp/ChatApp/Controllers/AuthController.cs:140-160 | the session is cleared and the user is sent to the login page; a session user is marked offline |
| Auth.LoginAndLogoutBypassTheHub | ChatApp/ChatApp/Controllers/AuthController.cs:61-152 | logging in without a hub connection makes the user online without a registry entry. Logging out with a connection still open makes them offline with one. |
| ClientScript.Entity | ChatApp/ChatApp/wwwroot/js/chat.js:737-744 | each of `& < > " '` becomes its fixed entity, which contains no markup character; any other character passes through |
| ClientScript.EscapeHtml | ChatApp/ChatApp/wwwroot/js/chat.js:736-745 | the output is no shorter than the input and contains no raw `<`, `>`, `"` or `'`; a string without special characters is returned unchanged |
| ClientScript.EscapeConcat | ChatApp/ChatApp/wwwroot/js/chat.js:744 | escaping works character by character: escaping a concatenation concatenates the escapes |
| ClientScript.Unescape | ChatApp/ChatApp/wwwroot/js/chat.js:737-744 | decoding the five entities never lengthens a string |
| ClientScript.UnescapeEntity | ChatApp/ChatApp/wwwroot/js/chat.js:737-744 | decoding reads each entity back as its character |
| ClientScript.UnescapeEscape | ChatApp/ChatApp/wwwroot/js/chat.js:736-745 | decoding the escaped string gives back the original, so other characters pass through unchanged and in order |
| ClientScript.HandleSearchInput | ChatApp/ChatApp/wwwroot/js/chat.js:139-159 | a search is scheduled, for the trimmed query, exactly when the trimmed query has at least 2 characters; the results are hidden when it is empty and otherwise left as they were |
| ClientScript.BlankQueryHides | ChatApp/ChatApp/wwwroot/js/chat.js:142-147 | a blank query hides the results and schedules nothing |

## Left out

- `MuteConversation` (`ChatController.cs:754`) is a stub that changes no state.
- Read-only controller actions are not modelled: `Index`, `Conversation`, `GetConversationInfo`, `SearchMessages`, `GetSavedMessages`, `GetConversationMessagesAsync`, `SearchUsers` except its relationship classifier, `SearchAll`, `GetMessageReactions`, and the panel and item loaders.
- Views, `ViewBag`, `TempData`, JSON response shapes, notification texts and the `HH:mm` payload formatting are not modelled. An answer is an `Outcome` carrying the reason or the reported state.
- `DateTime.Now` is the parameter `now`.
- The hub's caller id is a parameter, derived by `HubCallerId`. The session API and `SessionUserIdProvider.cs` are not part of this model.
- SHA-256 is a free constructor `Sha256(password)`: equal digests mean equal passwords.
- String length is counted in characters, not UTF-16 code units.
- A missing form field and an empty one are both the empty string. The same holds for hub arguments: ChatHub.EditMessage stores an empty text for a null `newText`, where `newText.Trim()` (`ChatHub.cs:233`) throws a `NullReferenceException`, so the source saves and sends nothing.
- Nullable flags such as `bool?` are plain booleans with the schema's default.
- The `Users` columns `UpdatedAt`, `PhoneNumber`, `Bio`, `DateOfBirth`, `Gender` and `CoverPhoto` are not modelled: no modelled action reads them, and the `UpdatedAt` that registration writes (`AuthController.cs:129`) is never consulted.
- SignalR transport, the thread-safety of `ConcurrentDictionary` and `HashSet`, and concurrent requests are not modelled. Each callback or action is one atomic step.
- `Program.cs`, `chat-search.js` and the rest of `chat.js` (DOM, AJAX, timers) are not part of this model. The debounce timer of `handleSearchInput` becomes the query it would search for.
- EF Core query mechanics are abstracted to map and set operations. `SaveChangesAsync` failures are modelled only as the foreign-key and unique-index violations the core's writes can cause, answered `Fault`. The catch-all in `GetUserConversationsAsync` answers the empty list.
- ConversationList.Latest: when two undeleted messages share the latest `SentAt`, the model takes any of them, while the database picks one.
- Auth.Login: when several rows match, the model takes any of them; in a valid store there is only one (`Auth.CredentialsIdentifyOneUser`).
- ChatHub.OnConnected: outgoing notices are a set, so a connection that shares k of the user's active conversations receives one `UserStatusChanged` notice, while `NotifyUserOnlineStatus` (`ChatHub.cs:365-372`) sends one per conversation group and that connection receives k.
- ChatHub.OnDisconnected: the same collapse of the per-group `UserStatusChanged` notices into one per connection applies when the last connection closes.
- ClientScript.EscapeHtml: the input is a string, so the `TypeError` that `escapeHtml(null)` or `escapeHtml(undefined)` throws at `text.replace` (`chat.js:744`) is not modelled; `chat.js:192` and `chat.js:208` pass the nullable `user.fullName`.
- Auth.Login: username comparisons are exact string equality. The source compares inside SQL Server queries (`AuthController.cs:46`) under a database collation it never sets; SQL Server's default collation ignores case and trailing spaces, so "ALICE" would sign in as "Alice" there.
- Auth.Register: the username and email taken tests (`UsernameTakenIn`, `EmailTakenIn`) use exact equality, while the queries at `AuthController.cs:106` and `AuthController.cs:113` follow the unset database collation, which by default would refuse "alice" when "Alice" exists.
- Cascade deletes and the foreign keys of tables the core never writes (notifications about messages) are not modelled.
