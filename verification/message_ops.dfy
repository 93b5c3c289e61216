/** The message mutations the real-time hub and the chat controller share:
    editing with history, soft deletion, the reaction toggle and its grouped
    summary, and the pin toggle. */
module MessageOps {
  import opened Optional
  import opened Store

  /** Overwrites a message's text, first appending its old text to the edit
      history. `text` is already trimmed by the caller. */
  function ApplyEdit(db: Db, id: MessageId, text: string, now: Time): (r: Db)
    requires id in db.messages
    ensures r.edits == db.edits + [EditEntry(id, db.messages[id].text, now)]
    ensures r.messages.Keys == db.messages.Keys
    ensures r.messages[id].text == text && r.messages[id].isEdited && r.messages[id].editedAt == Some(now)
    ensures r.messages[id].(text := db.messages[id].text, isEdited := db.messages[id].isEdited,
                            editedAt := db.messages[id].editedAt) == db.messages[id]
    ensures forall k :: k in db.messages && k != id ==> r.messages[k] == db.messages[k]
    ensures r.(edits := db.edits, messages := db.messages) == db
  {
    var m := db.messages[id];
    db.(edits := db.edits + [EditEntry(id, m.text, now)],
        messages := db.messages[id := m.(text := text, isEdited := true, editedAt := Some(now))])
  }

  /** Marks a message deleted by `actor` at `now`; the row stays. */
  function ApplyDelete(db: Db, id: MessageId, actor: UserId, now: Time): (r: Db)
    requires id in db.messages
    ensures r.messages.Keys == db.messages.Keys
    ensures r.messages[id].isDeleted && r.messages[id].deletedAt == Some(now) && r.messages[id].deletedBy == Some(actor)
    ensures r.messages[id].text == db.messages[id].text
    ensures forall k :: k in db.messages && k != id ==> r.messages[k] == db.messages[k]
    ensures r.(messages := db.messages) == db
  {
    var m := db.messages[id];
    db.(messages := db.messages[id := m.(isDeleted := true, deletedAt := Some(now), deletedBy := Some(actor))])
  }

  /** The reaction toggle of both `ReactToMessage` and `ReactMessage`: the
      same kind again removes the user's reaction, another kind replaces it
      with a fresh timestamp, and no reaction adds one. `removed` tells which. */
  function ToggleReaction(rs: map<(MessageId, UserId), Reaction>, id: MessageId, u: UserId,
                          kind: string, now: Time): (r: (map<(MessageId, UserId), Reaction>, bool))
    ensures r.1 <==> ((id, u) in rs && rs[(id, u)].kind == kind)
    ensures r.1 ==> r.0 == rs - {(id, u)}
    ensures !r.1 ==> r.0 == rs[(id, u) := Reaction(kind, now)]
  {
    if (id, u) in rs && rs[(id, u)].kind == kind then (rs - {(id, u)}, true)
    else (rs[(id, u) := Reaction(kind, now)], false)
  }

  /** The users whose reaction to message `id` is of kind `kind`. */
  function UsersWith(rs: map<(MessageId, UserId), Reaction>, id: MessageId, kind: string): (us: set<UserId>)
    ensures forall u :: u in us <==> (id, u) in rs && rs[(id, u)].kind == kind
  {
    set k | k in rs && k.0 == id && rs[k].kind == kind :: k.1
  }

  /** The kinds present on message `id`. */
  function KindsOn(rs: map<(MessageId, UserId), Reaction>, id: MessageId): (ks: set<string>)
    ensures forall kind :: kind in ks <==> exists u :: (id, u) in rs && rs[(id, u)].kind == kind
  {
    var ks := set k | k in rs && k.0 == id :: rs[k].kind;
    forall kind | exists u :: (id, u) in rs && rs[(id, u)].kind == kind
      ensures kind in ks
    {
      var u :| (id, u) in rs && rs[(id, u)].kind == kind;
      assert (id, u).0 == id;
    }
    forall kind | kind in ks
      ensures exists u :: (id, u) in rs && rs[(id, u)].kind == kind
    {
      var k :| k in rs && k.0 == id && rs[k].kind == kind;
      var u := k.1;
      assert (id, u) == k;
      assert (id, u) in rs && rs[(id, u)].kind == kind;
    }
    ks
  }

  /** One entry of the grouped reaction list the hub broadcasts. */
  datatype ReactionGroup = ReactionGroup(kind: string, count: nat, userIds: set<UserId>)

  /** `GroupBy(ReactionType)` over the reactions to message `id`. */
  function ReactionGroups(rs: map<(MessageId, UserId), Reaction>, id: MessageId): (gs: set<ReactionGroup>)
    ensures forall g :: g in gs ==> g.count == |g.userIds| && g.userIds == UsersWith(rs, id, g.kind) && g.userIds != {}
    ensures forall g1, g2 :: g1 in gs && g2 in gs && g1.kind == g2.kind ==> g1 == g2
    ensures forall u :: (id, u) in rs ==> exists g :: g in gs && g.kind == rs[(id, u)].kind && u in g.userIds
  {
    var gs := set kind | kind in KindsOn(rs, id) :: ReactionGroup(kind, |UsersWith(rs, id, kind)|, UsersWith(rs, id, kind));
    assert forall u :: (id, u) in rs ==> ReactionGroup(rs[(id, u)].kind, |UsersWith(rs, id, rs[(id, u)].kind)|, UsersWith(rs, id, rs[(id, u)].kind)) in gs;
    gs
  }

  /** After a toggle the user holds at most the one reaction the toggle left,
      and every kind's user set changes only by that user: the kind removed
      loses them, the kind added gains them. */
  lemma ToggleMovesOneUser(rs: map<(MessageId, UserId), Reaction>, id: MessageId, u: UserId,
                           kind: string, other: string, now: Time)
    ensures var (rs', removed) := ToggleReaction(rs, id, u, kind, now);
      && (removed ==> UsersWith(rs', id, kind) == UsersWith(rs, id, kind) - {u})
      && (!removed ==> UsersWith(rs', id, kind) == UsersWith(rs, id, kind) + {u})
      && (other != kind ==>
            UsersWith(rs', id, other) == UsersWith(rs, id, other) - {u})
      && (forall m :: m != id ==> UsersWith(rs', m, other) == UsersWith(rs, m, other))
  {
  }

  /** Reacting twice with the same kind, starting from no reaction, leaves the
      reactions as they were. */
  lemma ToggleTwiceRestores(rs: map<(MessageId, UserId), Reaction>, id: MessageId, u: UserId,
                            kind: string, t1: Time, t2: Time)
    requires (id, u) !in rs
    ensures ToggleReaction(ToggleReaction(rs, id, u, kind, t1).0, id, u, kind, t2).0 == rs
  {
  }

  /** `PinMessage`'s flip: pinned becomes unpinned and back; the pin time
      and pinner are set exactly while the message is pinned. */
  function TogglePin(m: Message, actor: UserId, now: Time): (r: Message)
    ensures r.isPinned == !m.isPinned
    ensures r.isPinned <==> r.pinnedAt.Some?
    ensures r.isPinned <==> r.pinnedBy.Some?
    ensures r.isPinned ==> r.pinnedAt == Some(now) && r.pinnedBy == Some(actor)
    ensures r.(isPinned := m.isPinned, pinnedAt := m.pinnedAt, pinnedBy := m.pinnedBy) == m
  {
    var pinned := !m.isPinned;
    m.(isPinned := pinned,
       pinnedAt := if pinned then Some(now) else None,
       pinnedBy := if pinned then Some(actor) else None)
  }

  // ---------------------------------------------------------------------
  // The mutations keep the store valid.
  // ---------------------------------------------------------------------

  lemma {:induction false} ApplyEditKeepsValid(db: Db, id: MessageId, text: string, now: Time)
    requires Valid(db) && id in db.messages
    ensures Valid(ApplyEdit(db, id, text, now))
  {
    var m := db.messages[id];
    var m' := m.(text := text, isEdited := true, editedAt := Some(now));
    assert MessageFits(db, m') by { assert FlagsAgree(m); }
    UpdateMessageKeepsValid(db, id, m');
    var db1 := db.(messages := db.messages[id := m']);
    var e := EditEntry(id, m.text, now);
    AppendEditKeepsValid(db1, e);
    assert ApplyEdit(db, id, text, now) == db1.(edits := db1.edits + [e]);
  }

  /** Toggling a reaction on an existing message, by a user with a row or
      one whose reaction is already stored, keeps the store valid. */
  lemma {:induction false} ToggleKeepsValid(db: Db, id: MessageId, u: UserId, kind: string, now: Time)
    requires Valid(db) && id in db.messages && ((id, u) in db.reactions || u in db.users)
    ensures Valid(db.(reactions := ToggleReaction(db.reactions, id, u, kind, now).0))
  {
    ToggleKeepsKeys(db, id, u, kind, now);
    ToggleKeepsRefs(db, id, u, kind, now);
  }

  lemma {:induction false} ToggleKeepsKeys(db: Db, id: MessageId, u: UserId, kind: string, now: Time)
    requires ForeignKeys(db) && id in db.messages
    ensures ForeignKeys(db.(reactions := ToggleReaction(db.reactions, id, u, kind, now).0))
  {
  }

  lemma {:induction false} ToggleKeepsRefs(db: Db, id: MessageId, u: UserId, kind: string, now: Time)
    requires UserRefs(db) && ((id, u) in db.reactions || u in db.users)
    ensures UserRefs(db.(reactions := ToggleReaction(db.reactions, id, u, kind, now).0))
  {
    assert u in db.users;
  }

  lemma ApplyDeleteKeepsValid(db: Db, id: MessageId, actor: UserId, now: Time)
    requires Valid(db) && id in db.messages && actor in db.users
    ensures Valid(ApplyDelete(db, id, actor, now))
  {
    var m := db.messages[id];
    var m' := m.(isDeleted := true, deletedAt := Some(now), deletedBy := Some(actor));
    assert MessageFits(db, m') by { assert FlagsAgree(m); }
    UpdateMessageKeepsValid(db, id, m');
  }

  lemma TogglePinKeepsValid(db: Db, id: MessageId, actor: UserId, now: Time)
    requires Valid(db) && id in db.messages && actor in db.users
    ensures Valid(db.(messages := db.messages[id := TogglePin(db.messages[id], actor, now)]))
  {
    var m := db.messages[id];
    assert MessageFits(db, TogglePin(m, actor, now)) by { assert FlagsAgree(m); }
    UpdateMessageKeepsValid(db, id, TogglePin(m, actor, now));
  }
}
