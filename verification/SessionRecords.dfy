/** The fields of a session record that turns, streaming and delivery share. */
module SessionRecords {
  import opened Options
  import opened Trim

  type SessionId = nat
  type ThreadId = nat
  type TurnId = nat

  /** Where a session is attached: a chat and topic, or a local channel. */
  datatype Slot = Telegram(chat: Option<int>, topic: Option<int>) | Local(channel: string)

  datatype Status = Active | RunningTurn | Interrupted | RecoveringTurn | DeliveringFinal | Archived

  datatype Phase = NoPhase | Answer | Commentary | Finalizing

  datatype Session = Session(
    slot: Slot,
    attached: bool,
    status: Status,
    thread: Option<ThreadId>,
    active: Option<TurnId>,
    completed: Option<TurnId>,
    pending: string,
    streamed: string,
    delivered: string,
    phase: Phase,
    dirty: bool,
    generation: nat,
    createdAt: int,
    lastUserAt: Option<int>,
    pendingAt: Option<int>,
    lastAgentAt: Option<int>,
    hasMessages: bool)

  type Sessions = map<SessionId, Session>

  predicate IsWritable(s: Session) {
    s.attached && (s.status == Active || s.status == RunningTurn || s.status == Interrupted || s.status == DeliveringFinal)
  }

  predicate IsRecoverable(s: Session) {
    s.status != Archived
  }

  predicate IsPrunable(s: Session) {
    !s.attached && s.active.None? && s.pending == ""
  }

  predicate Blank(text: string) {
    Strip(text, IsSpace) == ""
  }

  /** `_stabilize_session`: what is stored keeps the stored thread for an active turn, and drops a
      turn that has no thread at all. */
  function Stabilize(updated: Session, existing: Option<Session>): Session {
    var kept := if updated.active.Some? && updated.thread.None? && existing.Some? then updated.(thread := existing.value.thread)
                else updated;
    if kept.active.Some? && kept.thread.None? then
      kept.(active := None, status := if kept.status == RunningTurn then Active else kept.status)
    else kept
  }

  function Stored(sessions: Sessions, id: SessionId): Option<Session> {
    if id in sessions then Some(sessions[id]) else None
  }

  /** `save_session` */
  function Saved(sessions: Sessions, id: SessionId, s: Session): Sessions {
    sessions[id := Stabilize(s, Stored(sessions, id))]
  }

  /** A new session record, as its constructor's defaults say. */
  function NewSession(slot: Slot, now: int): Session {
    Session(slot, true, Active, None, None, None, "", "", "", NoPhase, true, 0, now, None, None, None, false)
  }

  predicate TurnHasThread(s: Session) {
    s.active.Some? ==> s.thread.Some?
  }

  /** Saving a record whose turn has a thread stores it unchanged; in any case what is stored has
      a thread for its turn. */
  lemma StabilizeKeeps(s: Session, existing: Option<Session>)
    ensures TurnHasThread(Stabilize(s, existing))
    ensures TurnHasThread(s) ==> Stabilize(s, existing) == s
  {
  }

  /** What is stored keeps an active turn exactly if some thread is known for it, the record's own one
      before the stored one; without its turn a record is not left running, and nothing else of it
      changes. */
  lemma StabilizeKeepsTurnExactly(updated: Session, existing: Option<Session>)
    requires updated.active.Some?
    ensures var t := Stabilize(updated, existing);
            var known := if updated.thread.Some? then updated.thread else if existing.Some? then existing.value.thread else None;
            && t == updated.(thread := known, active := t.active, status := t.status)
            && t.active == (if known.Some? then updated.active else None)
            && (known.Some? ==> t.status == updated.status)
            && (known.None? ==> t.status != RunningTurn && (updated.status != RunningTurn ==> t.status == updated.status))
  {
  }
}
