/** What app-server notifications do to the stored sessions: routing, acceptance, the text branches
    and the completion branch of `drain_codex_notifications`, with the flushes they run. */
module Notifications {
  import opened Options
  import opened Trim
  import opened SessionRecords
  import opened Reassembly

  /** How a text arrives. `CompletedMessage` is a completed item that is an agent message. */
  datatype MessageKind = Delta | CompletedMessage | OtherMethod

  /** The parts of a notification's parameters that the branches look at. `turn` is the plain turn
      id, `nested` the one inside a turn object. */
  datatype Notification =
    | Thinking(thread: Option<ThreadId>, turn: Option<TurnId>, nested: Option<TurnId>)
    | Message(thread: Option<ThreadId>, turn: Option<TurnId>, nested: Option<TurnId>,
              kind: MessageKind, commentary: string, text: string, aside: bool)
    | Partial(thread: Option<ThreadId>, turn: Option<TurnId>, nested: Option<TurnId>, text: string)
    | TurnEnd(thread: Option<ThreadId>, turn: Option<TurnId>, nested: Option<TurnId>,
              failed: bool, errorNamesThread: bool, text: string)
    | ThreadReady(thread: Option<ThreadId>, turn: Option<TurnId>, nested: Option<TurnId>)
    | Unrelated(thread: Option<ThreadId>, turn: Option<TurnId>, nested: Option<TurnId>)

  /** What the rest of the service contributes: the clock, the paired chat, whether messages can be
      queued, whether they are delivered in the background, whether there is thinking to show, whether
      a flush or a shown thought is due now, whether the thought is shown as commentary, and whether
      the session's messages are known by id after something was shown. */
  datatype World = World(
    now: int, chat: Option<int>, chatKnown: bool, accepted: bool, background: bool, history: bool, due: bool,
    commentary: bool, messages: bool)

  /** `extract_turn_id` */
  function TurnOf(n: Notification): Option<TurnId> {
    if n.turn.Some? then n.turn else n.nested
  }

  // ---------------------------------------------------------------- routing

  /** `_session_accepts_turn_notification` */
  predicate AcceptsTurn(s: Session, turn: Option<TurnId>) {
    turn.None? || s.active == turn || s.completed != turn
  }

  /** `_session_accepts_live_output_notification` */
  predicate AcceptsOutput(s: Session, turn: Option<TurnId>) {
    if s.active.None? then s.completed.None? else turn.None? || s.active == turn
  }

  predicate Welcomes(s: Session, turn: Option<TurnId>) {
    IsRecoverable(s) && AcceptsTurn(s, turn)
  }

  predicate HasThread(sessions: Sessions, id: SessionId, thread: Option<ThreadId>) {
    id in sessions && thread.Some? && sessions[id].thread == thread
  }

  predicate HasTurn(sessions: Sessions, id: SessionId, turn: Option<TurnId>) {
    id in sessions && turn.Some? && sessions[id].active == turn
  }

  predicate HasCompleted(sessions: Sessions, id: SessionId, turn: Option<TurnId>) {
    id in sessions && turn.Some? && sessions[id].completed == turn
  }

  /** The paired chat's own session, before it has a thread. */
  predicate IsFallback(s: Session, chat: Option<int>) {
    IsWritable(s) && s.slot == Telegram(chat, None) && s.thread.None?
  }

  /** `resolve_notification_session`: `target` is a session that the look-ups may find. */
  ghost predicate Resolves(sessions: Sessions, n: Notification, chat: Option<int>, target: Option<SessionId>) {
    if n.thread.Some? then
      match target
      case Some(id) => HasThread(sessions, id, n.thread) && Welcomes(sessions[id], n.turn)
      case None => (forall id :: !HasThread(sessions, id, n.thread)) ||
                   exists id :: HasThread(sessions, id, n.thread) && !Welcomes(sessions[id], n.turn)
    else
      match target
      case Some(id) =>
        (HasTurn(sessions, id, n.turn) && Welcomes(sessions[id], n.turn)) ||
        (id in sessions && IsFallback(sessions[id], chat) && forall j :: !HasCompleted(sessions, j, n.turn))
      case None => true
  }

  /** What no notification changes. */
  predicate SameSeat(s: Session, t: Session) {
    t.slot == s.slot && t.attached == s.attached && t.dirty == s.dirty && t.generation == s.generation
  }

  // ---------------------------------------------------------------- the text branches

  predicate SaysNothing(action: Action) {
    action.Ignore? || action.text == ""
  }

  /** A text for a session: after commentary it replaces everything, otherwise it is merged. */
  function Heard(s: Session, kind: MessageKind, text: string, now: int): (t: Session)
    ensures t.active == s.active && t.completed == s.completed && t.thread == s.thread && SameSeat(s, t)
  {
    if s.phase == Commentary then s.(phase := Answer, pending := text, pendingAt := Some(now), streamed := "")
    else
      var action := if kind == CompletedMessage && (!Blank(s.pending) || !Blank(s.streamed)) then Replace(text)
                    else if kind == Delta then MergeDelta(s, text)
                    else MergeIncremental(s, text);
      if SaysNothing(action) then s else Applied(s, action).(phase := Answer, pendingAt := Some(now))
  }

  /** `maybe_stream_partial_output`, if it is due. */
  function MaybeFlushed(s: Session, w: World): (t: Session)
    ensures t.active == s.active && t.completed == s.completed && t.thread == s.thread && SameSeat(s, t)
  {
    if Blank(s.pending) || !w.due then s else FlushedPartial(s, w.chatKnown, w.accepted, w.messages, w.now)
  }

  /** `set_visible_thinking_message`: a thought, commentary or a status is shown, if that is due. */
  function Mused(s: Session, commentary: bool, w: World): (t: Session)
    ensures t == s.(phase := t.phase, hasMessages := t.hasMessages, lastAgentAt := t.lastAgentAt)
  {
    if !w.due then s
    else s.(phase := if commentary then Commentary else s.phase, hasMessages := w.messages, lastAgentAt := Some(w.now))
  }

  /** The branches that touch one session's text. */
  function Spoken(s: Session, n: Notification, w: World): (t: Session)
    ensures t.active == s.active && t.completed == s.completed && t.thread == s.thread && SameSeat(s, t)
  {
    match n
    case Thinking(_, _, _) => if AcceptsOutput(s, TurnOf(n)) then Mused(s, w.commentary, w) else s
    case Message(_, _, _, kind, commentary, text, aside) =>
      if !AcceptsOutput(s, TurnOf(n)) && (commentary != "" || text != "" || aside) then s
      else if commentary != "" then Mused(s, true, w)
      else if text != "" then Heard(s, kind, text, w.now)
      else if aside then Mused(s, false, w)
      else s
    case Partial(_, _, _, text) =>
      if !AcceptsOutput(s, TurnOf(n)) then s
      else MaybeFlushed(if text != "" then s.(pending := s.pending + text, pendingAt := Some(w.now)) else s, w)
    case Unrelated(_, _, _) => if AcceptsOutput(s, TurnOf(n)) then Mused(s, false, w) else s
    case _ => s
  }

  // ---------------------------------------------------------------- the end of a turn

  /** `should_append_completion_text` */
  predicate WantsCompletion(s: Session, text: string) {
    var candidate := Strip(text, IsSpace);
    candidate != "" && Strip(s.pending, IsSpace) != candidate && Strip(s.streamed, IsSpace) != candidate &&
    !(Blank(s.pending) && Strip(s.delivered, IsSpace) == candidate)
  }

  function WithCompletion(s: Session, text: string, now: int): (t: Session)
    ensures t.active == s.active && t.completed == s.completed && t.thread == s.thread && SameSeat(s, t)
  {
    if !WantsCompletion(s, text) then s
    else
      var action := MergeIncremental(s, text);
      if SaysNothing(action) then s
      else if action.Replace? then Applied(s, action).(phase := NoPhase, pendingAt := Some(now))
      else Applied(s, action).(pendingAt := Some(now))
  }

  /** The turn is over: nothing is active, and the turn is remembered. */
  function Closed(s: Session, turn: TurnId): Session {
    s.(active := None, completed := Some(turn), status := Active)
  }

  /** `reset_session_after_request_failure` */
  function ResetAfterFailure(s: Session, errorNamesThread: bool): Session {
    var t := s.(active := None, pending := "", pendingAt := None, streamed := "", phase := NoPhase, status := Active,
                hasMessages := false);
    if errorNamesThread then t.(thread := None, completed := None) else t
  }

  function Cleared(s: Session): Session {
    s.(streamed := "", phase := NoPhase, hasMessages := false)
  }

  /** Nothing is pending: what was streamed is either delivered again in final form, or done. */
  function WithoutPending(s: Session, w: World): (r: (Session, bool))
    ensures r.0.active == s.active && r.0.completed == s.completed && r.0.thread == s.thread && SameSeat(s, r.0)
  {
    var final := Strip(s.streamed, IsSpace);
    if final != "" && s.hasMessages && (w.history || w.background) then (s.(pending := final, pendingAt := Some(w.now)), true)
    else
      var t := if final != "" && final != s.delivered then s.(delivered := final, lastAgentAt := Some(w.now)) else s;
      (Cleared(t), false)
  }

  /** `flush_buffer` with `mark_agent`. A refused delivery raises and stores nothing. */
  function FlushedFinal(s: Session, w: World): (t: Session)
    ensures t.active == s.active && t.completed == s.completed && t.thread == s.thread && SameSeat(s, t)
  {
    if Blank(s.pending) then s
    else if !s.attached || !w.chatKnown then Consumed(s).(lastAgentAt := Some(w.now))
    else
      var text := FlushText(s);
      if text == s.delivered && !(s.hasMessages && (w.history || w.background)) then Consumed(Cleared(s))
      else if !w.accepted then s
      else if w.background then s.(streamed := text, phase := Finalizing, status := DeliveringFinal, hasMessages := w.messages)
      else Consumed(Cleared(s)).(delivered := text, lastAgentAt := Some(w.now))
  }

  /** What happens to the record once its turn is closed. */
  function Settled(t: Session, failed: bool, errorNamesThread: bool, w: World): Session {
    if failed then ResetAfterFailure(t, errorNamesThread)
    else if Blank(t.pending) then
      var (u, flush) := WithoutPending(t, w);
      if flush then FlushedFinal(u, w) else u
    else FlushedFinal(t, w)
  }

  /** The completion branch for the session whose active turn ended. */
  function Ended(s: Session, turn: TurnId, failed: bool, errorNamesThread: bool, text: string, w: World): (t: Session)
    ensures t.active.None? && SameSeat(s, t)
    ensures t.completed == if failed && errorNamesThread then None else Some(turn)
    ensures t.thread == if failed && errorNamesThread then None else s.thread
  {
    Settled(Closed(WithCompletion(s, text, w.now), turn), failed, errorNamesThread, w)
  }

  /** The session, if any, whose turn this notification ends: any one with that active turn. */
  ghost predicate Ends(sessions: Sessions, n: Notification, target: Option<SessionId>) {
    match target
    case Some(id) => HasTurn(sessions, id, TurnOf(n))
    case None => forall id :: !HasTurn(sessions, id, TurnOf(n))
  }

  /** The session that a thread notification binds: the current one, if it has no thread and no
      session has that thread. */
  ghost predicate Binds(sessions: Sessions, n: Notification, chat: Option<int>, target: Option<SessionId>) {
    target.Some? ==>
      target.value in sessions && sessions[target.value].thread.None? && sessions[target.value].attached &&
      IsRecoverable(sessions[target.value]) && sessions[target.value].slot == Telegram(chat, None) &&
      n.thread.Some? && forall id :: !HasThread(sessions, id, n.thread)
  }

  /** Which session a notification is for. */
  ghost predicate Addresses(sessions: Sessions, n: Notification, w: World, target: Option<SessionId>) {
    match n
    case TurnEnd(_, _, _, _, _, _) => Ends(sessions, n, target)
    case ThreadReady(_, _, _) => Binds(sessions, n, w.chat, target)
    case _ => Resolves(sessions, n, w.chat, target)
  }

  /** One notification handled: at most the addressed session changes. */
  function Handled(sessions: Sessions, n: Notification, w: World, target: Option<SessionId>): Sessions {
    if target.None? || target.value !in sessions then sessions
    else
      var id, s := target.value, sessions[target.value];
      match n
      case TurnEnd(_, _, _, failed, errorNamesThread, text) =>
        if !IsRecoverable(s) || TurnOf(n).None? then sessions
        else sessions[id := Ended(s, TurnOf(n).value, failed, errorNamesThread, text, w)]
      case ThreadReady(thread, _, _) => if thread.None? then sessions else sessions[id := s.(thread := thread)]
      case _ => sessions[id := Spoken(s, n, w)]
  }

  /** Of a session, a notification touches the seat never, the active turn only by ending it, and
      the thread only to bind one or to drop it together with the turn. */
  lemma HandledKeeps(sessions: Sessions, n: Notification, w: World, target: Option<SessionId>, id: SessionId)
    requires Addresses(sessions, n, w, target) && id in sessions
    ensures var t := Handled(sessions, n, w, target);
            t.Keys == sessions.Keys && SameSeat(sessions[id], t[id]) &&
            (t[id].active == sessions[id].active || (n.TurnEnd? && TurnOf(n) == sessions[id].active && t[id].active.None?)) &&
            (t[id].active.Some? && sessions[id].thread.Some? ==> t[id].thread.Some?)
  {
  }

  lemma SettledFrees(s: Session, w: World)
    requires s.active.None? && s.status == Active
    ensures var t := Settled(s, false, false, w);
            t.active.None? && (t.status == Active || (t.status == DeliveringFinal && w.background))
  {
    FinalStatus(s, w);
    FinalStatus(WithoutPending(s, w).0, w);
  }

  /** After the end of a turn the session is free for the next message, whatever became of the answer;
      and of a failed turn's answer nothing is left to be shown. */
  lemma EndFreesSession(s: Session, turn: TurnId, failed: bool, errorNamesThread: bool, text: string, w: World)
    ensures var t := Ended(s, turn, failed, errorNamesThread, text, w);
            t.active.None? && (t.status == Active || (t.status == DeliveringFinal && !failed && w.background)) &&
            (failed ==> Combined(t) == "" && t.phase == NoPhase && !t.hasMessages)
  {
    var u := Closed(WithCompletion(s, text, w.now), turn);
    if !failed {
      SettledFrees(u, w);
      assert Settled(u, false, errorNamesThread, w) == Settled(u, false, false, w);
    }
  }

  lemma FinalStatus(s: Session, w: World)
    requires s.status == Active
    ensures var t := FlushedFinal(s, w); t.status == Active || (t.status == DeliveringFinal && w.background)
  {
  }

  /** A thread notification that names a session's thread binds it: from then on that session, and no
      other, is found by the thread. */
  lemma BoundThreadIsFound(sessions: Sessions, n: Notification, w: World, id: SessionId)
    requires n.ThreadReady? && Addresses(sessions, n, w, Some(id))
    ensures forall j :: HasThread(Handled(sessions, n, w, Some(id)), j, n.thread) <==> j == id
  {
    forall j ensures HasThread(Handled(sessions, n, w, Some(id)), j, n.thread) <==> j == id {
      assert !HasThread(sessions, j, n.thread);
    }
  }

  // ---------------------------------------------------------------- turn isolation

  predicate SameText(s: Session, t: Session) {
    s.pending == t.pending && s.streamed == t.streamed && s.delivered == t.delivered
  }

  /** The session sits where output without a thread id is looked for: attached to a chat itself, not
      to a topic. */
  predicate AtChat(s: Session) {
    s.attached && s.slot.Telegram? && s.slot.topic.None?
  }

  /** No turn is active, and no output can be meant for the session: its last turn is remembered, or
      it has no thread and does not sit at a chat. */
  predicate Quiet(s: Session) {
    s.active.None? && (s.completed.Some? || (s.thread.None? && !AtChat(s)))
  }

  /** While a session is quiet no notification of any kind changes its text or makes it less quiet. */
  lemma QuietStaysQuiet(sessions: Sessions, n: Notification, w: World, target: Option<SessionId>, id: SessionId)
    requires Addresses(sessions, n, w, target) && id in sessions && Quiet(sessions[id])
    ensures var t := Handled(sessions, n, w, target);
            id in t && Quiet(t[id]) && SameText(sessions[id], t[id]) && t[id].completed == sessions[id].completed
  {
    assert n.TurnEnd? && target == Some(id) ==> HasTurn(sessions, id, TurnOf(n));
  }

  /** The notification reaches the session and changes its text. */
  ghost predicate Disturbs(sessions: Sessions, id: SessionId, n: Notification, w: World, target: Option<SessionId>)
    requires id in sessions
  {
    Addresses(sessions, n, w, target) && !SameText(sessions[id], Handled(sessions, n, w, target)[id])
  }

  ghost predicate CanBeDisturbed(sessions: Sessions, id: SessionId)
    requires id in sessions
  {
    exists n, w, target :: Disturbs(sessions, id, n, w, target)
  }

  /** While a turn is active, output that names a different turn changes nothing at all. */
  lemma OtherTurnsOutputIgnored(sessions: Sessions, n: Notification, w: World, target: Option<SessionId>)
    requires n.Thinking? || n.Partial? || (n.Message? && (n.commentary != "" || n.text != "" || n.aside))
    requires Addresses(sessions, n, w, target) && target.Some? && target.value in sessions
    requires sessions[target.value].active.Some? && TurnOf(n).Some? && TurnOf(n) != sessions[target.value].active
    ensures Handled(sessions, n, w, target) == sessions
  {
  }

  /** The turn failed with an error about its thread, in a session that sits at its chat. */
  predicate LeavesOpen(s: Session, n: Notification)
    requires n.TurnEnd?
  {
    n.failed && n.errorNamesThread && AtChat(s)
  }

  const NO_WORLD := World(0, None, false, false, false, false, false, false, false)

  const STRAY_OUTPUT := Partial(None, None, None, "x")

  /** Output that names neither thread nor turn reaches a session at its chat that has neither. */
  lemma StrayOutputDisturbs(sessions: Sessions, id: SessionId)
    requires id in sessions && AtChat(sessions[id]) && sessions[id].status == Active
    requires var s := sessions[id]; s.active.None? && s.completed.None? && s.thread.None?
    ensures Disturbs(sessions, id, STRAY_OUTPUT, NO_WORLD.(chat := sessions[id].slot.chat), Some(id))
  {
    var s, w := sessions[id], NO_WORLD.(chat := sessions[id].slot.chat);
    assert IsFallback(s, w.chat);
    assert Handled(sessions, STRAY_OUTPUT, w, Some(id))[id].pending == s.pending + "x";
  }

  /** After the processed end of a turn some notification can still change the session's text, if
      and only if the turn failed with an error about its thread and the session sits at its chat:
      the code then forgets thread and turn, and stray output finds the session again. */
  lemma EndSilencesExactly(sessions: Sessions, n: Notification, w: World, id: SessionId)
    requires n.TurnEnd? && Addresses(sessions, n, w, Some(id)) && IsRecoverable(sessions[id])
    ensures var t := Handled(sessions, n, w, Some(id));
            && id in t && t[id].active.None?
            && (CanBeDisturbed(t, id) <==> LeavesOpen(sessions[id], n))
            && (Quiet(t[id]) <==> !LeavesOpen(sessions[id], n))
  {
    var t := Handled(sessions, n, w, Some(id));
    if LeavesOpen(sessions[id], n) {
      StrayOutputDisturbs(t, id);
    } else {
      forall m, v, target ensures !Disturbs(t, id, m, v, target) {
        if Addresses(t, m, v, target) { QuietStaysQuiet(t, m, v, target, id); }
      }
    }
  }

  // ---------------------------------------------------------------- runs

  /** A notification for a session, or a turn registered by a send. */
  datatype Event =
    | Notified(n: Notification, w: World, target: Option<SessionId>)
    | Registered(id: SessionId, turn: TurnId)

  ghost predicate Possible(sessions: Sessions, used: set<TurnId>, e: Event) {
    match e
    case Notified(n, w, target) => Addresses(sessions, n, w, target)
    case Registered(id, turn) => id in sessions && turn !in used
  }

  function Happen(sessions: Sessions, e: Event): Sessions
    requires e.Registered? ==> e.id in sessions
  {
    match e
    case Notified(n, w, target) => Handled(sessions, n, w, target)
    case Registered(id, turn) =>
      sessions[id := sessions[id].(active := Some(turn), pending := "", streamed := "", delivered := "",
                                   phase := NoPhase, status := RunningTurn)]
  }

  function UsedAfter(used: set<TurnId>, e: Event): set<TurnId> {
    if e.Registered? then used + {e.turn} else used
  }

  ghost predicate History(sessions: Sessions, used: set<TurnId>, events: seq<Event>)
    decreases |events|
  {
    events != [] ==>
      Possible(sessions, used, events[0]) && History(Happen(sessions, events[0]), UsedAfter(used, events[0]), events[1..])
  }

  ghost function Final(sessions: Sessions, used: set<TurnId>, events: seq<Event>): Sessions
    requires History(sessions, used, events)
    decreases |events|
  {
    if events == [] then sessions
    else Final(Happen(sessions, events[0]), UsedAfter(used, events[0]), events[1..])
  }

  predicate RegistersNothingFor(events: seq<Event>, id: SessionId) {
    forall e | e in events :: e.Registered? ==> e.id != id
  }

  /** From the end of a turn until the session's next turn is registered, no sequence of
      notifications changes its pending, streamed or delivered text. */
  lemma {:induction false} QuietUntilNextTurn(sessions: Sessions, used: set<TurnId>, events: seq<Event>, id: SessionId)
    requires History(sessions, used, events) && RegistersNothingFor(events, id)
    requires id in sessions && Quiet(sessions[id])
    ensures var t := Final(sessions, used, events);
            id in t && Quiet(t[id]) && SameText(sessions[id], t[id])
    decreases |events|
  {
    if events != [] {
      assert events[0] in events;
      match events[0] {
        case Notified(n, w, target) => QuietStaysQuiet(sessions, n, w, target, id);
        case Registered(_, _) =>
      }
      QuietUntilNextTurn(Happen(sessions, events[0]), UsedAfter(used, events[0]), events[1..], id);
    }
  }

  /** The same for every end of a turn that does not leave the session open: whatever is notified
      afterwards, and whatever turns other sessions start, the text stays as the end left it. */
  lemma TextRestsAfterEnd(sessions: Sessions, used: set<TurnId>, n: Notification, w: World, events: seq<Event>, id: SessionId)
    requires n.TurnEnd? && Addresses(sessions, n, w, Some(id)) && IsRecoverable(sessions[id])
    requires !LeavesOpen(sessions[id], n)
    requires var after := Handled(sessions, n, w, Some(id)); History(after, used, events)
    requires RegistersNothingFor(events, id)
    ensures var after := Handled(sessions, n, w, Some(id));
            var t := Final(after, used, events);
            id in t && SameText(after[id], t[id])
  {
    EndSilencesExactly(sessions, n, w, id);
    QuietUntilNextTurn(Handled(sessions, n, w, Some(id)), used, events, id);
  }

  /** This event ends this turn for some session. */
  ghost predicate ProcessesEnd(sessions: Sessions, e: Event, turn: TurnId) {
    e.Notified? && e.n.TurnEnd? && TurnOf(e.n) == Some(turn) && e.target.Some? && e.target.value in sessions &&
    IsRecoverable(sessions[e.target.value])
  }

  ghost function EndsProcessed(sessions: Sessions, used: set<TurnId>, events: seq<Event>, turn: TurnId): nat
    requires History(sessions, used, events)
    decreases |events|
  {
    if events == [] then 0
    else (if ProcessesEnd(sessions, events[0], turn) then 1 else 0) +
         EndsProcessed(Happen(sessions, events[0]), UsedAfter(used, events[0]), events[1..], turn)
  }

  /** The turn is active nowhere, and its id is used up. */
  ghost predicate OverAndDone(sessions: Sessions, used: set<TurnId>, turn: TurnId) {
    turn in used && forall id :: !HasTurn(sessions, id, Some(turn))
  }

  ghost predicate ActiveOnce(sessions: Sessions, used: set<TurnId>, turn: TurnId) {
    (forall i, j :: HasTurn(sessions, i, Some(turn)) && HasTurn(sessions, j, Some(turn)) ==> i == j) &&
    (turn !in used ==> forall id :: !HasTurn(sessions, id, Some(turn)))
  }

  lemma ActiveShrinks(sessions: Sessions, n: Notification, w: World, target: Option<SessionId>, id: SessionId, turn: TurnId)
    requires Addresses(sessions, n, w, target) && HasTurn(Handled(sessions, n, w, target), id, Some(turn))
    ensures HasTurn(sessions, id, Some(turn))
  {
  }

  /** If no session gains the turn, nothing about it gets worse. */
  lemma ShrinkingKeepsActiveOnce(before: Sessions, after: Sessions, used: set<TurnId>, turn: TurnId)
    requires ActiveOnce(before, used, turn)
    requires forall id :: HasTurn(after, id, Some(turn)) ==> HasTurn(before, id, Some(turn))
    ensures ActiveOnce(after, used, turn)
    ensures OverAndDone(before, used, turn) ==> OverAndDone(after, used, turn)
  {
  }

  lemma NotifiedKeepsActiveOnce(sessions: Sessions, used: set<TurnId>, e: Event, turn: TurnId)
    requires e.Notified? && Possible(sessions, used, e) && ActiveOnce(sessions, used, turn)
    ensures ActiveOnce(Happen(sessions, e), used, turn)
    ensures OverAndDone(sessions, used, turn) ==> OverAndDone(Happen(sessions, e), used, turn)
    ensures ProcessesEnd(sessions, e, turn) && turn in used ==> OverAndDone(Happen(sessions, e), used, turn)
  {
    var after := Handled(sessions, e.n, e.w, e.target);
    forall id | HasTurn(after, id, Some(turn)) ensures HasTurn(sessions, id, Some(turn)) {
      ActiveShrinks(sessions, e.n, e.w, e.target, id, turn);
    }
    ShrinkingKeepsActiveOnce(sessions, after, used, turn);
    if ProcessesEnd(sessions, e, turn) && turn in used {
      var target := e.target.value;
      assert HasTurn(sessions, target, Some(turn)) && after[target].active.None?;
      forall id ensures !HasTurn(after, id, Some(turn)) {
        assert HasTurn(after, id, Some(turn)) ==> HasTurn(sessions, id, Some(turn));
      }
    }
  }

  lemma StepKeepsActiveOnce(sessions: Sessions, used: set<TurnId>, e: Event, turn: TurnId)
    requires Possible(sessions, used, e) && ActiveOnce(sessions, used, turn)
    ensures ActiveOnce(Happen(sessions, e), UsedAfter(used, e), turn)
    ensures OverAndDone(sessions, used, turn) ==> OverAndDone(Happen(sessions, e), UsedAfter(used, e), turn)
    ensures ProcessesEnd(sessions, e, turn) && turn in used ==> OverAndDone(Happen(sessions, e), UsedAfter(used, e), turn)
  {
    match e
    case Notified(_, _, _) => NotifiedKeepsActiveOnce(sessions, used, e, turn);
    case Registered(id, started) =>
      var after := Happen(sessions, e);
      forall j | j != id || started != turn ensures HasTurn(after, j, Some(turn)) ==> HasTurn(sessions, j, Some(turn)) {}
  }

  /** Each turn's completion is processed at most once, however often it is notified. */
  lemma {:induction false} EachEndProcessedOnce(sessions: Sessions, used: set<TurnId>, events: seq<Event>, turn: TurnId)
    requires History(sessions, used, events) && ActiveOnce(sessions, used, turn)
    ensures EndsProcessed(sessions, used, events, turn) <= if OverAndDone(sessions, used, turn) then 0 else 1
    decreases |events|
  {
    if events != [] {
      StepKeepsActiveOnce(sessions, used, events[0], turn);
      EachEndProcessedOnce(Happen(sessions, events[0]), UsedAfter(used, events[0]), events[1..], turn);
    }
  }

  // ---------------------------------------------------------------- what a turn finally delivers

  /** The answer is delivered, or, with delivery in the background, on its way. */
  predicate Delivers(t: Session, answer: string, w: World) {
    t.delivered == answer || (w.background && t.streamed == answer && t.status == DeliveringFinal)
  }

  /** A completion text that repeats the whole answer adds nothing. */
  lemma CompletionAddsNothing(s: Session, text: string, now: int)
    requires text == "" || text == Combined(s)
    ensures WithCompletion(s, text, now) == s
  {
    assert Strip("", IsSpace) == "";
  }

  lemma WaitingTailIsDelivered(s: Session, w: World)
    requires Streaming(s) && !Blank(s.pending) && Strip(Combined(s), IsSpace) == Combined(s) && !TailRepeatsStream(s)
    requires w.chatKnown && w.accepted
    ensures Delivers(FlushedFinal(s, w), Combined(s), w)
  {
    FlushTextIsAnswerExactly(s);
    assert Strip("", IsSpace) == "" && |Combined(s)| > |s.delivered|;
  }

  lemma ShownAnswerIsDelivered(s: Session, w: World)
    requires Streaming(s) && s.pending == "" && s.streamed != "" && Strip(s.streamed, IsSpace) == s.streamed
    requires w.chatKnown && w.accepted
    ensures Delivers(Settled(s, false, false, w), s.streamed, w)
  {
    assert Strip("", IsSpace) == "";
    var again := s.(pending := s.streamed, pendingAt := Some(w.now));
    assert FlushText(again) == s.streamed;
    assert Delivers(FlushedFinal(again, w), s.streamed, w) || !(s.hasMessages && (w.history || w.background));
  }

  lemma BlankTailIsEmpty(s: Session)
    requires Blank(s.pending) && Combined(s) != "" && Strip(Combined(s), IsSpace) == Combined(s)
    ensures s.pending == ""
  {
    StripEmpty(s.pending, IsSpace);
    StripTrimmed(Combined(s), IsSpace);
    LastOfConcat(s.streamed, s.pending);
  }

  /** The end of a turn that did not fail delivers the whole answer, if it has no outer blanks and its
      waiting tail does not begin with the streamed text, and the delivery is accepted. */
  lemma EndDeliversAnswer(s: Session, turn: TurnId, text: string, w: World)
    requires Streaming(s) && Combined(s) != "" && Strip(Combined(s), IsSpace) == Combined(s)
    requires Blank(s.pending) || !TailRepeatsStream(s)
    requires (text == "" || text == Combined(s)) && w.chatKnown && w.accepted
    ensures Delivers(Ended(s, turn, false, false, text, w), Combined(s), w)
  {
    CompletionAddsNothing(s, text, w.now);
    var t := Closed(s, turn);
    if Blank(s.pending) {
      BlankTailIsEmpty(s);
      assert Combined(s) == s.streamed;
      ShownAnswerIsDelivered(t, w);
    } else {
      WaitingTailIsDelivered(t, w);
    }
  }

  /** From the first snapshot to the end of the turn: growing snapshots, interleaved with partial
      flushes and followed by a completion that names no other text, are delivered as the latest
      snapshot, whole. */
  lemma SnapshotsAreDelivered(s: Session, events: seq<Reassembly.Event>, turn: TurnId, text: string, w: World)
    requires Streaming(s) && Combined(s) == "" && Growing(s, events, "")
    requires var answer, t := Latest(events, ""), HappenAll(s, events);
             answer != "" && (Blank(t.pending) || !TailRepeatsStream(t)) && (text == "" || text == answer)
    requires w.chatKnown && w.accepted
    ensures Delivers(Ended(HappenAll(s, events), turn, false, false, text, w), Latest(events, ""), w)
  {
    assert Strip("", IsSpace) == "";
    GrowingSnapshotsSurviveFlushes(s, events, "");
    EndDeliversAnswer(HappenAll(s, events), turn, text, w);
  }
}
