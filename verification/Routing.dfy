/** Which stored session a notification is for: the look-ups of `resolve_notification_session` and of
    the completion and thread branches. */
module Routing {
  import opened Options
  import opened SessionRecords
  import opened SessionStore
  import opened Notifications

  /** `find_by_thread_id`. Of several sessions any one may be found. */
  method FindByThread(store: Store, thread: Option<ThreadId>) returns (found: Option<SessionId>)
    ensures if found.Some? then HasThread(store.sessions, found.value, thread)
            else forall id :: !HasThread(store.sessions, id, thread)
  {
    var ids := set id | id in store.sessions && HasThread(store.sessions, id, thread);
    found := AnyOf(ids);
    assert forall id | HasThread(store.sessions, id, thread) :: id in ids;
  }

  /** `find_by_turn_id` */
  method FindByTurn(store: Store, turn: Option<TurnId>) returns (found: Option<SessionId>)
    ensures if found.Some? then HasTurn(store.sessions, found.value, turn)
            else forall id :: !HasTurn(store.sessions, id, turn)
  {
    var ids := set id | id in store.sessions && HasTurn(store.sessions, id, turn);
    found := AnyOf(ids);
    assert forall id | HasTurn(store.sessions, id, turn) :: id in ids;
  }

  /** `find_by_completed_turn_id` */
  method FindByCompleted(store: Store, turn: Option<TurnId>) returns (found: Option<SessionId>)
    ensures if found.Some? then HasCompleted(store.sessions, found.value, turn)
            else forall id :: !HasCompleted(store.sessions, id, turn)
  {
    var ids := set id | id in store.sessions && HasCompleted(store.sessions, id, turn);
    found := AnyOf(ids);
    assert forall id | HasCompleted(store.sessions, id, turn) :: id in ids;
  }

  method AnyOf(ids: set<SessionId>) returns (found: Option<SessionId>)
    ensures if found.Some? then found.value in ids else ids == {}
  {
    found := None;
    if ids != {} {
      var id: SessionId :| id in ids;
      found := Some(id);
    }
  }

  /** The session at the chat itself, if it can be written to, or only if it is attached. */
  predicate IsCurrent(s: Session, chat: Option<int>, toWrite: bool) {
    s.slot == Telegram(chat, None) && if toWrite then IsWritable(s) else s.attached && IsRecoverable(s)
  }

  /** `get_active_telegram_session` and `get_current_telegram_session`. In a valid store there is at
      most one such session. */
  method FindCurrent(store: Store, chat: Option<int>, toWrite: bool) returns (found: Option<SessionId>)
    requires store.Valid()
    ensures found.Some? ==> found.value in store.sessions
    ensures forall id | id in store.sessions && IsCurrent(store.sessions[id], chat, toWrite) :: found == Some(id)
    ensures found.Some? ==> IsCurrent(store.sessions[found.value], chat, toWrite)
  {
    var ids := set id | id in store.sessions && IsCurrent(store.sessions[id], chat, toWrite);
    found := AnyOf(ids);
    forall id | id in store.sessions && IsCurrent(store.sessions[id], chat, toWrite) ensures found == Some(id) {
      assert id in ids;
      assert !ShareSlot(store.sessions, id, found.value);
    }
  }

  /** No session has the turn, or one that has it does not take it any more. */
  ghost predicate MissedByTurn(sessions: Sessions, turn: Option<TurnId>) {
    (forall id :: !HasTurn(sessions, id, turn)) || exists id :: HasTurn(sessions, id, turn) && !Welcomes(sessions[id], turn)
  }

  /** The chat's own session does not take a notification that names no thread. */
  ghost predicate NoFallback(sessions: Sessions, n: Notification, chat: Option<int>) {
    (exists id :: HasCompleted(sessions, id, n.turn)) || forall id | id in sessions :: !IsFallback(sessions[id], chat)
  }

  /** `resolve_notification_session`: by the thread alone if there is one; otherwise by the turn, and
      then the chat's own session if that turn is not known as completed. */
  method Resolve(store: Store, n: Notification, chat: Option<int>) returns (target: Option<SessionId>)
    requires store.Valid()
    ensures Resolves(store.sessions, n, chat, target)
    ensures n.thread.None? && !(target.Some? && HasTurn(store.sessions, target.value, n.turn)) ==>
              MissedByTurn(store.sessions, n.turn)
    ensures n.thread.None? && target.None? ==> NoFallback(store.sessions, n, chat)
  {
    if n.thread.Some? {
      target := FindByThread(store, n.thread);
      if target.Some? && !Welcomes(store.sessions[target.value], n.turn) {
        target := None;
      }
      return;
    }
    if n.turn.Some? {
      target := FindByTurn(store, n.turn);
      if target.Some? && Welcomes(store.sessions[target.value], n.turn) {
        return;
      }
      var completed := FindByCompleted(store, n.turn);
      if completed.Some? {
        return None;
      }
    }
    target := FindCurrent(store, chat, true);
    if target.Some? && store.sessions[target.value].thread.Some? {
      target := None;
    }
  }

  /** The session that the branch for this kind of notification changes. */
  method Route(store: Store, n: Notification, w: World) returns (target: Option<SessionId>)
    requires store.Valid()
    ensures Addresses(store.sessions, n, w, target)
    ensures n.ThreadReady? && n.thread.Some? && target.None? ==>
              (exists id :: HasThread(store.sessions, id, n.thread)) ||
              forall id | id in store.sessions && IsCurrent(store.sessions[id], w.chat, false) ::
                store.sessions[id].thread.Some?
  {
    match n {
      case TurnEnd(_, _, _, _, _, _) => target := FindByTurn(store, TurnOf(n));
      case ThreadReady(_, _, _) =>
        var known := FindByThread(store, n.thread);
        if n.thread.None? || known.Some? {
          return None;
        }
        target := FindCurrent(store, w.chat, false);
        if target.Some? && store.sessions[target.value].thread.Some? {
          target := None;
        }
      case _ => target := Resolve(store, n, w.chat);
    }
  }

  // ---------------------------------------------------------------- who is found, and who is not

  /** A turn's end is found by the plain turn id or, without one, by the id inside the turn object, and
      then ends that turn. */
  lemma EndFoundByEitherId(sessions: Sessions, n: Notification, w: World, id: SessionId, turn: TurnId)
    requires n.TurnEnd? && (n.turn == Some(turn) || (n.turn.None? && n.nested == Some(turn)))
    requires HasTurn(sessions, id, Some(turn)) && IsRecoverable(sessions[id])
    ensures Addresses(sessions, n, w, Some(id)) && Handled(sessions, n, w, Some(id))[id].active.None?
  {
  }

  /** Output that names a completed turn finds no session that it was completed in. */
  lemma CompletedTurnFindsNoSession(sessions: Sessions, n: Notification, chat: Option<int>, id: SessionId)
    requires HasCompleted(sessions, id, n.turn) && sessions[id].active != n.turn
    ensures !Resolves(sessions, n, chat, Some(id))
  {
  }

  /** Output that names no thread finds a session only by its active turn, or, if that session has no
      thread itself, by the chat that it sits at. */
  lemma ThreadlessOutputFinds(sessions: Sessions, n: Notification, chat: Option<int>, id: SessionId)
    requires n.thread.None? && Resolves(sessions, n, chat, Some(id))
    ensures HasTurn(sessions, id, n.turn) ||
            (sessions[id].thread.None? && AtChat(sessions[id]) && sessions[id].slot.chat == chat)
  {
  }

  /** No notification changes an archived session. */
  lemma ArchivedIsLeftAlone(sessions: Sessions, n: Notification, w: World, target: Option<SessionId>, id: SessionId)
    requires Addresses(sessions, n, w, target) && id in sessions && sessions[id].status == Archived
    ensures id in Handled(sessions, n, w, target) && Handled(sessions, n, w, target)[id] == sessions[id]
  {
  }
}
