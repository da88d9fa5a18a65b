/** `flush_buffer` and `drain_codex_notifications` on the store: records are changed field by field
    and saved in between. */
module Draining {
  import opened Options
  import opened Trim
  import opened SessionRecords
  import opened SessionStore
  import opened Reassembly
  import opened Notifications
  import opened Routing

  /** The record after a flush, and whether it has to be stored. */
  method FlushRecord(session: Session, markAgent: bool, w: World) returns (s: Session, save: bool)
    ensures s == if markAgent then FlushedFinal(session, w)
                 else FlushedPartial(session, w.chatKnown, w.accepted, w.messages, w.now)
    ensures save || s == session
  {
    s, save := session, false;
    if Blank(s.pending) {
      return;
    }
    var text := Strip(s.pending, IsSpace);
    if s.phase != Commentary && s.streamed != "" && !(Strip(s.streamed, IsSpace) <= text) {
      text := Strip(s.streamed + s.pending, IsSpace);
    }
    assert text == FlushText(s);
    if !s.attached || !w.chatKnown {
      if markAgent {
        s := s.(lastAgentAt := Some(w.now));
      }
      return Consumed(s), true;
    }
    if text == s.delivered {
      var finalizeAgain := markAgent && s.hasMessages && (w.history || w.background);
      if markAgent && !finalizeAgain {
        s := s.(hasMessages := false, streamed := "", phase := NoPhase);
      }
      if !finalizeAgain {
        return Consumed(s), true;
      }
    }
    if !w.accepted {
      return;
    }
    save := true;
    if !markAgent {
      s := s.(streamed := text, phase := Answer, delivered := text, lastAgentAt := Some(w.now), hasMessages := w.messages);
      s := Consumed(s);
    } else if w.background {
      s := s.(streamed := text, phase := Finalizing, status := DeliveringFinal, hasMessages := w.messages);
    } else {
      s := s.(hasMessages := false, streamed := "", phase := NoPhase, delivered := text, lastAgentAt := Some(w.now));
      s := Consumed(s);
    }
  }

  /** `flush_buffer` for one session. */
  method FlushBuffer(store: Store, id: SessionId, markAgent: bool, w: World)
    requires store.Valid() && id in store.sessions
    modifies store
    ensures store.Valid()
    ensures var s := old(store.sessions)[id];
            store.sessions == old(store.sessions)[id := if markAgent then FlushedFinal(s, w)
                                                        else FlushedPartial(s, w.chatKnown, w.accepted, w.messages, w.now)]
  {
    ghost var before := store.sessions;
    assert TurnHasThread(before[id]);
    var s, save := FlushRecord(store.sessions[id], markAgent, w);
    if save {
      SaveBack(store, id, s);
    } else {
      assert before[id := before[id]] == before;
    }
  }

  /** `save_session` for a record whose slot, attachment and turn are the stored ones. */
  method SaveBack(store: Store, id: SessionId, s: Session)
    requires store.Valid() && id in store.sessions && TurnHasThread(s)
    requires s.slot == store.sessions[id].slot && s.attached == store.sessions[id].attached
    modifies store
    ensures store.Valid() && store.sessions == old(store.sessions)[id := s]
  {
    SaveInPlace(store.sessions, id, s);
    store.sessions := Saved(store.sessions, id, s);
  }

  method MergeCompletion(store: Store, id: SessionId, text: string, now: int)
    requires store.Valid() && id in store.sessions
    modifies store
    ensures store.Valid()
    ensures store.sessions == old(store.sessions)[id := WithCompletion(old(store.sessions)[id], text, now)]
  {
    var s := store.sessions[id];
    assert TurnHasThread(s);
    if WantsCompletion(s, text) {
      match MergeIncremental(s, text) {
        case Replace(payload) =>
          if payload != "" {
            s := s.(pending := payload, pendingAt := Some(now), streamed := "", phase := NoPhase);
          }
        case Append(payload) =>
          if payload != "" {
            s := s.(pending := s.pending + payload, pendingAt := Some(now));
          }
        case Ignore =>
      }
    }
    SaveBack(store, id, s);
  }

  /** What follows once the turn is closed. */
  method SettleTurn(store: Store, id: SessionId, failed: bool, errorNamesThread: bool, w: World)
    requires store.Valid() && id in store.sessions && store.sessions[id].active.None?
    modifies store
    ensures store.Valid()
    ensures store.sessions == old(store.sessions)[id := Settled(old(store.sessions)[id], failed, errorNamesThread, w)]
  {
    ghost var before := store.sessions;
    var s := store.sessions[id];
    if failed {
      SaveBack(store, id, ResetAfterFailure(s, errorNamesThread));
      return;
    }
    if Blank(s.pending) {
      var final := Strip(s.streamed, IsSpace);
      if final != "" && s.hasMessages && (w.history || w.background) {
        SaveBack(store, id, s.(pending := final, pendingAt := Some(w.now)));
      } else {
        if final != "" && final != s.delivered {
          s := s.(delivered := final, lastAgentAt := Some(w.now));
        }
        SaveBack(store, id, s.(streamed := "", phase := NoPhase, hasMessages := false));
        return;
      }
    }
    FlushBuffer(store, id, true, w);
  }

  /** The completion branch. */
  method EndTurn(store: Store, id: SessionId, turn: TurnId, failed: bool, errorNamesThread: bool, text: string, w: World)
    requires store.Valid() && id in store.sessions
    modifies store
    ensures store.Valid()
    ensures store.sessions == old(store.sessions)[id := Ended(old(store.sessions)[id], turn, failed, errorNamesThread, text, w)]
  {
    MergeCompletion(store, id, text, w.now);
    SaveBack(store, id, store.sessions[id].(active := None, completed := Some(turn), status := Active));
    SettleTurn(store, id, failed, errorNamesThread, w);
  }

  /** `set_visible_thinking_message` */
  method ShowThought(store: Store, id: SessionId, commentary: bool, w: World)
    requires store.Valid() && id in store.sessions
    modifies store
    ensures store.Valid()
    ensures store.sessions == old(store.sessions)[id := Mused(old(store.sessions)[id], commentary, w)]
  {
    var s := store.sessions[id];
    assert TurnHasThread(s);
    if w.due {
      s := s.(hasMessages := w.messages);
      if commentary {
        s := s.(phase := Commentary);
      }
      s := s.(lastAgentAt := Some(w.now));
    }
    SaveBack(store, id, s);
  }

  /** The branch for an answer text: after commentary it replaces everything, otherwise it is merged. */
  method HearText(store: Store, id: SessionId, kind: MessageKind, text: string, now: int)
    requires store.Valid() && id in store.sessions && text != ""
    modifies store
    ensures store.Valid()
    ensures store.sessions == old(store.sessions)[id := Heard(old(store.sessions)[id], kind, text, now)]
  {
    ghost var before := store.sessions;
    var s := store.sessions[id];
    assert TurnHasThread(s);
    var action: Action;
    if s.phase == Commentary {
      action := Replace(text);
    } else if kind == CompletedMessage && (!Blank(s.pending) || !Blank(s.streamed)) {
      action := Replace(text);
    } else if kind == Delta {
      action := MergeDelta(s, text);
    } else {
      action := MergeIncremental(s, text);
    }
    match action {
      case Replace(payload) =>
        if payload != "" {
          SaveBack(store, id, s.(phase := Answer, pending := payload, pendingAt := Some(now), streamed := ""));
        }
      case Append(payload) =>
        if payload != "" {
          SaveBack(store, id, s.(phase := Answer, pending := s.pending + payload, pendingAt := Some(now)));
        }
      case Ignore =>
    }
    assert before[id := s] == before;
  }

  /** A notification taken from the queue, and the rest of the service at that time. */
  datatype Arrived = Arrived(n: Notification, w: World)

  /** One round of the drain loop: the session is looked up, and the branch of the notification is
      carried out on it. */
  method HandleOne(store: Store, a: Arrived) returns (target: Option<SessionId>)
    requires store.Valid()
    modifies store
    ensures store.Valid() && Addresses(old(store.sessions), a.n, a.w, target)
    ensures store.sessions == Handled(old(store.sessions), a.n, a.w, target)
  {
    target := Route(store, a.n, a.w);
    if target.Some? && target.value in store.sessions {
      CarryOut(store, a, target.value);
    }
  }

  /** The branches. */
  method CarryOut(store: Store, a: Arrived, id: SessionId)
    requires store.Valid() && id in store.sessions
    modifies store
    ensures store.Valid() && store.sessions == Handled(old(store.sessions), a.n, a.w, Some(id))
  {
    match a.n {
      case TurnEnd(_, _, _, failed, errorNamesThread, text) =>
        if IsRecoverable(store.sessions[id]) && TurnOf(a.n).Some? {
          EndTurn(store, id, TurnOf(a.n).value, failed, errorNamesThread, text, a.w);
        }
      case ThreadReady(thread, _, _) =>
        assert TurnHasThread(store.sessions[id]);
        if thread.Some? { SaveBack(store, id, store.sessions[id].(thread := thread)); }
      case _ => Speak(store, a, id);
    }
  }

  /** The branches that touch one session's text. */
  method Speak(store: Store, a: Arrived, id: SessionId)
    requires store.Valid() && id in store.sessions && !a.n.TurnEnd? && !a.n.ThreadReady?
    modifies store
    ensures store.Valid()
    ensures store.sessions == old(store.sessions)[id := Spoken(old(store.sessions)[id], a.n, a.w)]
  {
    var s := store.sessions[id];
    ghost var before := store.sessions;
    assert before[id := s] == before && TurnHasThread(s);
    var accepted := AcceptsOutput(s, TurnOf(a.n));
    match a.n {
      case Partial(_, _, _, text) =>
        if accepted {
          if text != "" {
            s := s.(pending := s.pending + text, pendingAt := Some(a.w.now));
            SaveBack(store, id, s);
          }
          if !Blank(s.pending) && a.w.due {
            FlushBuffer(store, id, false, a.w);
          }
        }
      case Message(_, _, _, kind, commentary, text, aside) =>
        if accepted {
          if commentary != "" {
            ShowThought(store, id, true, a.w);
          } else if text != "" {
            HearText(store, id, kind, text, a.w.now);
          } else if aside {
            ShowThought(store, id, false, a.w);
          }
        }
      case Thinking(_, _, _) =>
        if accepted {
          ShowThought(store, id, a.w.commentary, a.w);
        }
      case Unrelated(_, _, _) =>
        if accepted {
          ShowThought(store, id, false, a.w);
        }
    }
  }

  /** The event is the handling of this notification. */
  predicate Handles(e: Notifications.Event, a: Arrived) {
    e.Notified? && e.n == a.n && e.w == a.w
  }

  /** The drain loop: notifications are handled in the order of the queue, up to a maximum, each one
      for the session that the look-ups find for it then; so what is said about runs holds of it. */
  method Drain(store: Store, queue: seq<Arrived>, limit: Option<nat>, ghost used: set<TurnId>)
    returns (handled: nat, ghost events: seq<Notifications.Event>)
    requires store.Valid()
    modifies store
    ensures store.Valid()
    ensures handled == if limit.Some? && limit.value < |queue| then limit.value else |queue|
    ensures |events| == handled && forall i | 0 <= i < handled :: Handles(events[i], queue[i])
    ensures History(old(store.sessions), used, events) && store.sessions == Final(old(store.sessions), used, events)
  {
    handled, events := 0, [];
    ghost var before := store.sessions;
    while handled < |queue| && (limit.None? || handled < limit.value)
      invariant handled <= |queue| && (limit.Some? ==> handled <= limit.value) && store.Valid()
      invariant |events| == handled && forall i | 0 <= i < handled :: Handles(events[i], queue[i])
      invariant History(before, used, events) && store.sessions == Final(before, used, events)
    {
      var target := HandleOne(store, queue[handled]);
      ghost var e := Notified(queue[handled].n, queue[handled].w, target);
      HistorySnoc(before, used, events, e);
      events := events + [e];
      handled := handled + 1;
    }
  }

  lemma HistorySnoc(sessions: Sessions, used: set<TurnId>, events: seq<Notifications.Event>, e: Notifications.Event)
    requires e.Notified? && forall i | 0 <= i < |events| :: events[i].Notified?
    requires History(sessions, used, events) && Addresses(Final(sessions, used, events), e.n, e.w, e.target)
    ensures History(sessions, used, events + [e])
    ensures Final(sessions, used, events + [e]) == Handled(Final(sessions, used, events), e.n, e.w, e.target)
    decreases |events|
  {
    if events != [] {
      assert (events + [e])[0] == events[0] && (events + [e])[1..] == events[1..] + [e];
      HistorySnoc(Notifications.Happen(sessions, events[0]), used, events[1..], e);
    } else {
      assert (events + [e])[1..] == [];
    }
  }

  /** A drained queue leaves the text of a session at rest alone, and ends each turn at most once. */
  lemma DrainedAtRest(sessions: Sessions, used: set<TurnId>, events: seq<Notifications.Event>,
                      queue: seq<Arrived>, id: SessionId, turn: TurnId)
    requires |events| <= |queue| && forall i | 0 <= i < |events| :: Handles(events[i], queue[i])
    requires History(sessions, used, events) && id in sessions && ActiveOnce(sessions, used, turn)
    ensures var t := Final(sessions, used, events);
            Quiet(sessions[id]) ==> id in t && Quiet(t[id]) && SameText(sessions[id], t[id])
    ensures EndsProcessed(sessions, used, events, turn) <= 1
  {
    if Quiet(sessions[id]) { QuietUntilNextTurn(sessions, used, events, id); }
    EachEndProcessedOnce(sessions, used, events, turn);
  }
}
