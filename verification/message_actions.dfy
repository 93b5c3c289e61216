/** The chat controller's message actions: edit, delete, pin, react, save and
    unsave. Each takes the caller's `CurrentUserId` and answers with an
    outcome and the store it leaves. */
module MessageActions {
  import opened Optional
  import opened Store
  import opened Text
  import opened Access
  import MessageOps

  /** `EditMessage(messageId, newText)`: the message must exist, the caller
      must have sent it, and the new text must not be blank; then the old
      text goes to the history and the trimmed text replaces it. */
  function EditMessage(db: Db, caller: int, id: MessageId, newText: string, now: Time): (r: Response)
    ensures id !in db.messages <==> r.outcome == Failure(MessageNotFound)
    ensures r.outcome == Failure(NotMessageSender) <==> id in db.messages && db.messages[id].senderId != caller
    ensures r.outcome == Failure(EmptyText) <==>
      id in db.messages && db.messages[id].senderId == caller && IsBlank(DotNet, newText)
    ensures r.outcome.Failure? ==> r.db == db
    ensures r.outcome.Success? <==> id in db.messages && db.messages[id].senderId == caller && !IsBlank(DotNet, newText)
    ensures r.outcome.Success? ==>
      && r.db == MessageOps.ApplyEdit(db, id, Trim(DotNet, newText), now)
      && r.db.messages[id].text != []
  {
    if id !in db.messages then Reject(db, MessageNotFound)
    else if db.messages[id].senderId != caller then Reject(db, NotMessageSender)
    else if IsBlank(DotNet, newText) then Reject(db, EmptyText)
    else
      BlankIffTrimEmpty(DotNet, newText);
      Response(Success(Done), MessageOps.ApplyEdit(db, id, Trim(DotNet, newText), now))
  }

  /** `DeleteMessage(messageId)`: the sender soft-deletes their message,
      whether or not it was deleted already. */
  function DeleteMessage(db: Db, caller: int, id: MessageId, now: Time): (r: Response)
    ensures id !in db.messages <==> r.outcome == Failure(MessageNotFound)
    ensures r.outcome == Failure(NotMessageSender) <==> id in db.messages && db.messages[id].senderId != caller
    ensures r.outcome.Failure? ==> r.db == db
    ensures r.outcome.Success? <==> id in db.messages && db.messages[id].senderId == caller
    ensures r.outcome.Success? ==> r.db == MessageOps.ApplyDelete(db, id, caller, now)
  {
    if id !in db.messages then Reject(db, MessageNotFound)
    else if db.messages[id].senderId != caller then Reject(db, NotMessageSender)
    else Response(Success(Done), MessageOps.ApplyDelete(db, id, caller, now))
  }

  /** `PinMessage(messageId)`: an admin of the message's conversation flips
      its pin; the answer carries the new state. */
  function PinMessage(db: Db, caller: int, id: MessageId, now: Time): (r: Response)
    ensures id !in db.messages <==> r.outcome == Failure(MessageNotFound)
    ensures r.outcome == Failure(NotAdmin) <==>
      id in db.messages && !IsConversationAdmin(db, db.messages[id].conversationId, caller)
    ensures r.outcome.Success? <==>
      id in db.messages && IsConversationAdmin(db, db.messages[id].conversationId, caller)
    ensures r.outcome.Failure? ==> r.db == db
    ensures r.outcome.Success? ==>
      && id in db.messages
      && r.outcome.info == PinState(!db.messages[id].isPinned)
      && r.db == db.(messages := db.messages[id := MessageOps.TogglePin(db.messages[id], caller, now)])
  {
    if id !in db.messages then Reject(db, MessageNotFound)
    else if !IsConversationAdmin(db, db.messages[id].conversationId, caller) then Reject(db, NotAdmin)
    else
      var m := MessageOps.TogglePin(db.messages[id], caller, now);
      Response(Success(PinState(m.isPinned)), db.(messages := db.messages[id := m]))
  }

  /** `ReactMessage(messageId, reactionType)`: the reaction toggle; the
      answer tells whether the reaction was removed. A new reaction by a
      caller without a user row is refused by the foreign key. */
  function ReactMessage(db: Db, caller: int, id: MessageId, kind: string, now: Time): (r: Response)
    ensures id !in db.messages <==> r.outcome == Failure(MessageNotFound)
    ensures r.outcome == Fault <==> id in db.messages && (id, caller) !in db.reactions && caller !in db.users
    ensures r.outcome.Success? <==> id in db.messages && ((id, caller) in db.reactions || caller in db.users)
    ensures !r.outcome.Success? ==> r.db == db
    ensures r.outcome.Success? ==>
      var (rs, removed) := MessageOps.ToggleReaction(db.reactions, id, caller, kind, now);
      r.outcome.info == ReactionState(removed) && r.db == db.(reactions := rs)
  {
    if id !in db.messages then Reject(db, MessageNotFound)
    else if (id, caller) !in db.reactions && caller !in db.users then Response(Fault, db)
    else
      var (rs, removed) := MessageOps.ToggleReaction(db.reactions, id, caller, kind, now);
      Response(Success(ReactionState(removed)), db.(reactions := rs))
  }

  /** `SaveMessage(messageId, note)`: bookmarks an existing message once. */
  function SaveMessage(db: Db, caller: int, id: MessageId, note: Option<string>, now: Time): (r: Response)
    ensures id !in db.messages <==> r.outcome == Failure(MessageNotFound)
    ensures r.outcome == Failure(AlreadySaved) <==> id in db.messages && (caller, id) in db.saved
    ensures r.outcome == Fault <==> id in db.messages && (caller, id) !in db.saved && caller !in db.users
    ensures r.outcome.Success? <==> id in db.messages && (caller, id) !in db.saved && caller in db.users
    ensures !r.outcome.Success? ==> r.db == db
    ensures r.outcome.Success? ==>
      && (caller, id) !in db.saved
      && r.db == db.(saved := db.saved[(caller, id) := Saved(note, now)])
  {
    if id !in db.messages then Reject(db, MessageNotFound)
    else if (caller, id) in db.saved then Reject(db, AlreadySaved)
    else if caller !in db.users then Response(Fault, db)
    else Response(Success(Done), db.(saved := db.saved[(caller, id) := Saved(note, now)]))
  }

  /** `UnsaveMessage(messageId)`: removes the caller's bookmark. */
  function UnsaveMessage(db: Db, caller: int, id: MessageId): (r: Response)
    ensures r.outcome == Failure(NotSaved) <==> (caller, id) !in db.saved
    ensures r.outcome.Failure? ==> r.db == db
    ensures r.outcome.Success? ==> (caller, id) in db.saved && r.db == db.(saved := db.saved - {(caller, id)})
    ensures r.outcome.Success? || r.outcome == Failure(NotSaved)
  {
    if (caller, id) !in db.saved then Reject(db, NotSaved)
    else Response(Success(Done), db.(saved := db.saved - {(caller, id)}))
  }

  // ---------------------------------------------------------------------
  // How the actions relate.
  // ---------------------------------------------------------------------

  /** Saving and then unsaving a message leaves the store as it was. */
  lemma SaveThenUnsaveRestores(db: Db, caller: int, id: MessageId, note: Option<string>, now: Time)
    requires SaveMessage(db, caller, id, note, now).outcome.Success?
    ensures var s := SaveMessage(db, caller, id, note, now);
      UnsaveMessage(s.db, caller, id) == Response(Success(Done), db)
  {
    var s := SaveMessage(db, caller, id, note, now);
    assert s.db.saved - {(caller, id)} == db.saved;
  }

  /** Pinning twice gives back an unpinned message as it was. */
  lemma PinTwiceRestores(db: Db, caller: int, id: MessageId, t1: Time, t2: Time)
    requires id in db.messages && !db.messages[id].isPinned && FlagsAgree(db.messages[id])
    requires IsConversationAdmin(db, db.messages[id].conversationId, caller)
    ensures var s1 := PinMessage(db, caller, id, t1);
      && s1.outcome == Success(PinState(true))
      && PinMessage(s1.db, caller, id, t2) == Response(Success(PinState(false)), db)
  {
    var s1 := PinMessage(db, caller, id, t1);
    assert s1.db.messages[id := db.messages[id]] == db.messages;
  }

  /** On a text that is not blank, the controller's edit and the hub's edit
      write the same store; on a blank text only the controller refuses. */
  lemma EditAgreesWithHubUnlessBlank(db: Db, caller: int, id: MessageId, newText: string, now: Time)
    requires caller > 0 && id in db.messages && db.messages[id].senderId == caller
    ensures !IsBlank(DotNet, newText) ==>
      EditMessage(db, caller, id, newText, now).db == MessageOps.ApplyEdit(db, id, Trim(DotNet, newText), now)
    ensures IsBlank(DotNet, newText) ==>
      && EditMessage(db, caller, id, newText, now) == Reject(db, EmptyText)
      && MessageOps.ApplyEdit(db, id, Trim(DotNet, newText), now).messages[id].text == []
  {
    BlankIffTrimEmpty(DotNet, newText);
  }

  lemma EditKeepsValid(db: Db, caller: int, id: MessageId, text: string, now: Time)
    requires Valid(db)
    ensures Valid(EditMessage(db, caller, id, text, now).db)
  {
    if id in db.messages && db.messages[id].senderId == caller {
      MessageOps.ApplyEditKeepsValid(db, id, Trim(DotNet, text), now);
    }
  }

  lemma DeleteKeepsValid(db: Db, caller: int, id: MessageId, now: Time)
    requires Valid(db)
    ensures Valid(DeleteMessage(db, caller, id, now).db)
  {
    if id in db.messages && db.messages[id].senderId == caller {
      MessageOps.ApplyDeleteKeepsValid(db, id, caller, now);
    }
  }

  lemma PinKeepsValid(db: Db, caller: int, id: MessageId, now: Time)
    requires Valid(db)
    ensures Valid(PinMessage(db, caller, id, now).db)
  {
    if id in db.messages && IsConversationAdmin(db, db.messages[id].conversationId, caller) {
      assert (db.messages[id].conversationId, caller) in db.members;
      MessageOps.TogglePinKeepsValid(db, id, caller, now);
    }
  }

  lemma SaveKeepsValid(db: Db, caller: int, id: MessageId, note: Option<string>, now: Time)
    requires Valid(db)
    ensures Valid(SaveMessage(db, caller, id, note, now).db)
  {
    var r := SaveMessage(db, caller, id, note, now).db;
    assert ForeignKeys(r) && UserRefs(r);
  }

  lemma UnsaveKeepsValid(db: Db, caller: int, id: MessageId)
    requires Valid(db)
    ensures Valid(UnsaveMessage(db, caller, id).db)
  {
    var r := UnsaveMessage(db, caller, id).db;
    assert ForeignKeys(r) && UserRefs(r);
  }

  lemma {:induction false} ReactKeepsValid(db: Db, caller: int, id: MessageId, kind: string, now: Time)
    requires Valid(db)
    ensures Valid(ReactMessage(db, caller, id, kind, now).db)
  {
    if ReactMessage(db, caller, id, kind, now).outcome.Success? {
      MessageOps.ToggleKeepsValid(db, id, caller, kind, now);
    }
  }
}
