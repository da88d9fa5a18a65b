/** What a connection calls the server for: every message that a send takes reaches the server, once
    and in order, and nothing else is called than the stored record asks for. */
module ServerCalls {
  import opened Options
  import opened Trim
  import opened SessionRecords
  import opened Sleep
  import opened TurnLifecycle
  import opened Refreshes
  import Answers
  import R = Reassembly
  import N = Notifications

  // ---------------------------------------------------------------- one send

  /** The calls that a thread costs: none if this connection has it, one to resume it or to replace
      it, and one or two to get a first one. */
  function ThreadCalls(thread: Option<ThreadId>, resumed: set<ThreadId>, w: World): seq<Call> {
    match thread
    case Some(t) => if t in resumed then [] else if w.resume.Some? then [Resume(t)] else [StartThread]
    case None => if w.firstThread.Some? then [StartThread] else [StartThread, StartThread]
  }

  /** The thread that the turn then runs on. */
  function ThreadOf(thread: Option<ThreadId>, resumed: set<ThreadId>, w: World): Option<ThreadId> {
    match thread
    case Some(t) =>
      if t in resumed then thread
      else if w.resume.None? then w.secondThread
      else if w.resume.value.Some? then w.resume.value else thread
    case None => if w.firstThread.Some? then w.firstThread else w.secondThread
  }

  /** The calls that begin a turn for this record. */
  function BeginningCalls(s: Session, sleep: State, resumed: set<ThreadId>, id: SessionId, recovered: bool, w: World): seq<Call> {
    var thread := ThreadOf(s.thread, resumed, w);
    ThreadCalls(s.thread, resumed, w)
    + (if thread.Some? && w.turn.Some?
       then [StartTurn(thread.value, id, TurnInput(s, sleep).0, recovered, w.text)] else [])
  }

  /** All calls of a send, read off the stored record before it. */
  function CallsOfSend(c: Conn, id: SessionId, w: World): seq<Call>
    requires id in c.sessions && TurnHasThread(c.sessions[id])
  {
    var s := c.sessions[id];
    if s.status == RecoveringTurn then []
    else if !Begins(s, w) then [Steer(s.thread.value, s.active.value, w.text)]
    else (if s.active.Some? then [Interrupt(s.active.value)] else [])
         + BeginningCalls(s, c.sleep, c.resumed, id, s.active.Some?, w)
  }

  lemma ReadyThreadCalls(c: Conn, id: SessionId, s: Session, w: World)
    ensures var (d, t) := ReadyThread(c, id, s, w);
            d.calls == c.calls + ThreadCalls(s.thread, c.resumed, w) && t.thread == ThreadOf(s.thread, c.resumed, w)
  {
  }

  lemma LaunchedCalls(c: Conn, id: SessionId, s: Session, preface: Preface, recovered: bool, text: string, turn: TurnId)
    requires s.thread.Some?
    ensures Launched(c, id, s, preface, recovered, text, turn).calls ==
            c.calls + [StartTurn(s.thread.value, id, preface, recovered, text)]
  {
  }

  lemma BeginCalls(c: Conn, id: SessionId, s: Session, recovered: bool, w: World)
    ensures Begin(c, id, s, recovered, w).0.calls == c.calls + BeginningCalls(s, c.sleep, c.resumed, id, recovered, w)
  {
    var (preface, told) := TurnInput(s, c.sleep);
    TurnInputGeneration(s, c.sleep);
    ReadyThreadCalls(c, id, told, w);
    var (d, ready) := ReadyThread(c, id, told, w);
    if ready.thread.Some? {
      var blank := ready.(delivered := "", streamed := "", phase := NoPhase);
      var e := TurnLifecycle.Store(d, id, blank);
      assert e.calls == d.calls;
      if w.turn.Some? { LaunchedCalls(e, id, blank, preface, recovered, w.text, w.turn.value); }
    }
  }

  lemma BeginningDependsOn(s: Session, t: Session, sleep: State, resumed: set<ThreadId>, id: SessionId, recovered: bool, w: World)
    requires s.dirty == t.dirty && s.thread == t.thread && s.generation == t.generation
    ensures BeginningCalls(s, sleep, resumed, id, recovered, w) == BeginningCalls(t, sleep, resumed, id, recovered, w)
  {
    PrefaceDependsOn(s, t, sleep);
  }

  lemma AbortCalls(c: Conn, id: SessionId, s: Session, w: World)
    requires s.active.Some?
    ensures Begin(AbortStale(c, id, s), id, Dropped(s), true, w).0.calls ==
            c.calls + ([Interrupt(s.active.value)] + BeginningCalls(s, c.sleep, c.resumed, id, true, w))
  {
    var e := AbortStale(c, id, s);
    BeginCalls(e, id, Dropped(s), true, w);
    BeginningDependsOn(s, Dropped(s), c.sleep, c.resumed, id, true, w);
    Associate(c.calls, [Interrupt(s.active.value)], BeginningCalls(s, c.sleep, c.resumed, id, true, w));
  }

  /** A send makes exactly these calls, in this order. */
  lemma SendCallsExactly(c: Conn, id: SessionId, w: World)
    requires id in c.sessions && TurnHasThread(c.sessions[id])
    ensures Send(c, id, w).0.calls == c.calls + CallsOfSend(c, id, w)
  {
    var s := c.sessions[id];
    if Begins(s, w) {
      var marked := s.(lastUserAt := Some(w.now));
      var d := TurnLifecycle.Store(c, id, marked);
      var current := if marked.status != Archived then marked.(status := Active) else marked;
      BeginningDependsOn(s, current, c.sleep, c.resumed, id, s.active.Some?, w);
      if current.active.None? {
        BeginCalls(d, id, current, false, w);
        assert CallsOfSend(c, id, w) == BeginningCalls(current, c.sleep, c.resumed, id, false, w);
      } else {
        AbortCalls(d, id, current, w);
      }
    }
  }

  predicate TakesMessage(outcome: Outcome) {
    outcome.Steered? || outcome.Started?
  }

  /** A message for a running turn goes to the server as exactly one call, to the turn and the thread
      on the stored record, and disturbs nothing of the answer under way. */
  lemma SteeredReachesServer(c: Conn, id: SessionId, w: World)
    requires id in c.sessions && TurnHasThread(c.sessions[id]) && Send(c, id, w).1.Steered?
    ensures var s, d := c.sessions[id], Send(c, id, w).0;
            s.active.Some? && d.calls == c.calls + [Steer(s.thread.value, s.active.value, w.text)] &&
            d == c.(calls := d.calls, sessions := c.sessions[id := s.(lastUserAt := Some(w.now), status := RunningTurn)])
  {
    SendCallsExactly(c, id, w);
    assert !Begins(c.sessions[id], w);
  }

  // ---------------------------------------------------------------- whole runs

  /** The calls of a step. */
  ghost function CallsOfStep(c: Conn, step: Step): seq<Call>
    requires ConnOk(c) && Possible(c, step)
  {
    match step
    case SendTo(id, w) => assert TurnHasThread(c.sessions[id]); CallsOfSend(c, id, w)
    case InterruptAt(id) => if c.sessions[id].active.Some? then [Interrupt(c.sessions[id].active.value)] else []
    case _ => []
  }

  lemma StepCallsExactly(c: Conn, step: Step)
    requires ConnOk(c) && Possible(c, step)
    ensures Next(c, step).calls == c.calls + CallsOfStep(c, step)
  {
    if step.SendTo? {
      assert TurnHasThread(c.sessions[step.id]);
      SendCallsExactly(c, step.id, step.w);
    }
  }

  /** The messages that calls carry, in order. */
  function Texts(calls: seq<Call>): seq<string> {
    if calls == [] then []
    else (match calls[0] case Steer(_, _, text) => [text] case StartTurn(_, _, _, _, text) => [text] case _ => []) + Texts(calls[1..])
  }

  lemma TextsConcat(s: seq<Call>, t: seq<Call>)
    ensures Texts(s + t) == Texts(s) + Texts(t)
  {
    if s == [] {
      assert s + t == t;
    } else {
      assert (s + t)[1..] == s[1..] + t;
      TextsConcat(s[1..], t);
    }
  }

  /** The message of the step, if it is a send that steered or started a turn. */
  ghost function TextTaken(c: Conn, step: Step): seq<string>
    requires Possible(c, step)
  {
    if step.SendTo? && TakesMessage(Send(c, step.id, step.w).1) then [step.w.text] else []
  }

  /** The messages of all such sends, in order. */
  ghost function TextsTaken(c: Conn, steps: seq<Step>): seq<string>
    requires Runs(c, steps)
    decreases |steps|
  {
    if steps == [] then []
    else TextTaken(c, steps[0]) + TextsTaken(Next(c, steps[0]), steps[1..])
  }

  lemma BeginningTexts(s: Session, sleep: State, resumed: set<ThreadId>, id: SessionId, recovered: bool, w: World)
    ensures Texts(BeginningCalls(s, sleep, resumed, id, recovered, w)) ==
            if ThreadObtained(s, resumed, w) && w.turn.Some? then [w.text] else []
  {
    var thread, ready := ThreadOf(s.thread, resumed, w), ThreadCalls(s.thread, resumed, w);
    var start := if thread.Some? && w.turn.Some?
                 then [StartTurn(thread.value, id, TurnInput(s, sleep).0, recovered, w.text)] else [];
    TextsConcat(ready, start);
    assert Texts(ready) == [];
  }

  lemma SendTexts(c: Conn, id: SessionId, w: World)
    requires id in c.sessions && TurnHasThread(c.sessions[id])
    ensures Texts(CallsOfSend(c, id, w)) == if TakesMessage(Send(c, id, w).1) then [w.text] else []
  {
    var s := c.sessions[id];
    SendFailsExactly(c, id, w);
    if Begins(s, w) {
      BeginningTexts(s, c.sleep, c.resumed, id, s.active.Some?, w);
      if s.active.Some? {
        TextsConcat([Interrupt(s.active.value)], BeginningCalls(s, c.sleep, c.resumed, id, true, w));
        assert Texts([Interrupt(s.active.value)]) == [];
      } else {
        assert [] + BeginningCalls(s, c.sleep, c.resumed, id, false, w) == BeginningCalls(s, c.sleep, c.resumed, id, false, w);
      }
    }
  }

  lemma StepTexts(c: Conn, step: Step)
    requires ConnOk(c) && Possible(c, step)
    ensures Texts(Next(c, step).calls) == Texts(c.calls) + TextTaken(c, step)
  {
    StepCallsExactly(c, step);
    TextsConcat(c.calls, CallsOfStep(c, step));
    if step.SendTo? {
      assert TurnHasThread(c.sessions[step.id]);
      SendTexts(c, step.id, step.w);
    }
  }

  /** Over every run on a connection: the messages that reach the server, to steer or to start a turn,
      are exactly those of the sends that report so, each once and in the order of the sends. */
  lemma {:induction false} MessagesReachServer(c: Conn, steps: seq<Step>)
    requires ConnOk(c) && Runs(c, steps)
    ensures Texts(Exec(c, steps).calls) == Texts(c.calls) + TextsTaken(c, steps)
    decreases |steps|
  {
    if steps != [] {
      StepOk(c, steps[0]);
      StepTexts(c, steps[0]);
      MessagesReachServer(Next(c, steps[0]), steps[1..]);
      Associate(Texts(c.calls), TextTaken(c, steps[0]), TextsTaken(Next(c, steps[0]), steps[1..]));
    } else {
      assert Texts(c.calls) + [] == Texts(c.calls);
    }
  }

  lemma ReadyThreadOpens(c: Conn, id: SessionId, s: Session, w: World)
    ensures ReadyThread(c, id, s, w).0.open == c.open
  {
  }

  lemma BeginOpen(c: Conn, id: SessionId, s: Session, recovered: bool, w: World)
    ensures forall turn | turn in c.open :: turn in Begin(c, id, s, recovered, w).0.open
  {
    var told := TurnInput(s, c.sleep).1;
    ReadyThreadOpens(c, id, told, w);
  }

  lemma SendCloses(c: Conn, id: SessionId, w: World, turn: TurnId)
    requires id in c.sessions && TurnHasThread(c.sessions[id]) && turn in c.open && turn !in Send(c, id, w).0.open
    ensures Begins(c.sessions[id], w) && c.sessions[id].active == Some(turn)
  {
    var s := c.sessions[id];
    if Begins(s, w) {
      var marked := s.(lastUserAt := Some(w.now));
      var d := TurnLifecycle.Store(c, id, marked);
      var current := if marked.status != Archived then marked.(status := Active) else marked;
      if current.active.None? {
        BeginOpen(d, id, current, false, w);
      } else {
        BeginOpen(AbortStale(d, id, current), id, Dropped(current), true, w);
      }
    }
  }

  /** A turn that a step of the service closes on the server is interrupted by a call of that step;
      otherwise only the server itself ends turns. */
  lemma ClosedTurnsAreInterrupted(c: Conn, step: Step, turn: TurnId)
    requires ConnOk(c) && Possible(c, step) && !step.ServerEnds?
    requires turn in c.open && turn !in Next(c, step).open
    ensures Interrupt(turn) in CallsOfStep(c, step)
  {
    if step.SendTo? {
      assert TurnHasThread(c.sessions[step.id]);
      SendCloses(c, step.id, step.w, turn);
      assert CallsOfSend(c, step.id, step.w)[0] == Interrupt(turn);
    }
  }

  // ---------------------------------------------------------------- the record of a started turn

  /** The record says that this turn runs, and nothing of an earlier answer is left in it. */
  predicate RunsAfresh(s: Session, turn: Option<TurnId>) {
    && s.active == turn && s.status == RunningTurn && !s.dirty
    && s.pending == "" && s.streamed == "" && s.delivered == "" && s.phase == NoPhase
  }

  lemma BeginRecord(c: Conn, id: SessionId, s: Session, recovered: bool, w: World)
    requires Begin(c, id, s, recovered, w).1.Started?
    ensures var t := Begin(c, id, s, recovered, w).0.sessions;
            id in t && RunsAfresh(t[id], w.turn) && t[id].attached == s.attached && t[id].completed == s.completed
            && t[id].thread == ThreadOf(s.thread, c.resumed, w)
  {
    var (preface, told) := TurnInput(s, c.sleep);
    TurnInputGeneration(s, c.sleep);
    ReadyThreadCalls(c, id, told, w);
    ReadyThreadRecord(c, id, told, w);
  }

  lemma ReadyThreadRecord(c: Conn, id: SessionId, s: Session, w: World)
    ensures var t := ReadyThread(c, id, s, w).1; t == s.(thread := t.thread)
  {
  }

  /** A started turn runs on the thread that `turn/start` named, and its answer begins empty. */
  lemma StartedRunsAfresh(c: Conn, id: SessionId, w: World)
    requires id in c.sessions && TurnHasThread(c.sessions[id]) && Send(c, id, w).1.Started?
    ensures var s, t := c.sessions[id], Send(c, id, w).0.sessions;
            id in t && RunsAfresh(t[id], w.turn) && t[id].attached == s.attached && t[id].completed == s.completed
            && t[id].thread == ThreadOf(s.thread, c.resumed, w)
  {
    SendFailsExactly(c, id, w);
    var s := c.sessions[id];
    var marked := s.(lastUserAt := Some(w.now));
    var d := TurnLifecycle.Store(c, id, marked);
    var current := if marked.status != Archived then marked.(status := Active) else marked;
    if current.active.None? {
      BeginRecord(d, id, current, false, w);
    } else {
      BeginRecord(AbortStale(d, id, current), id, Dropped(current), true, w);
    }
  }

  predicate NothingLeft(s: Session) {
    s.pending == "" && s.streamed == "" && s.active.None?
  }

  lemma AskThreadLeavesNothing(c: Conn, id: SessionId, s: Session, answer: Option<ThreadId>)
    requires NothingLeft(s)
    ensures var (d, t) := AskThread(c, id, s, answer); id in d.sessions && NothingLeft(d.sessions[id]) && NothingLeft(t)
  {
  }

  lemma ReadyThreadLeavesNothing(c: Conn, id: SessionId, s: Session, w: World)
    requires NothingLeft(s) && id in c.sessions && NothingLeft(c.sessions[id])
    ensures var (d, t) := ReadyThread(c, id, s, w); id in d.sessions && NothingLeft(d.sessions[id]) && NothingLeft(t)
  {
    if s.thread.None? {
      AskThreadLeavesNothing(c, id, s, w.firstThread);
      var (d, t) := AskThread(c, id, s, w.firstThread);
      AskThreadLeavesNothing(d, id, t, w.secondThread);
    } else if s.thread.value !in c.resumed && w.resume.None? {
      var t := s.(thread := None);
      AskThreadLeavesNothing(TurnLifecycle.Store(c, id, t), id, t, w.secondThread);
    }
  }

  lemma BeginLeavesNothing(c: Conn, id: SessionId, s: Session, recovered: bool, w: World)
    requires NothingLeft(s) && id in c.sessions && NothingLeft(c.sessions[id])
    ensures var d := Begin(c, id, s, recovered, w).0;
            id in d.sessions && d.sessions[id].pending == "" && d.sessions[id].streamed == ""
  {
    var told := TurnInput(s, c.sleep).1;
    TurnInputGeneration(s, c.sleep);
    ReadyThreadLeavesNothing(c, id, told, w);
  }

  /** Whether or not the new turn can be started: of the answer of a stale turn nothing is left. */
  lemma StaleAnswerIsDropped(c: Conn, id: SessionId, w: World)
    requires id in c.sessions && TurnHasThread(c.sessions[id])
    requires Begins(c.sessions[id], w) && c.sessions[id].active.Some?
    ensures var d := Send(c, id, w).0; id in d.sessions && d.sessions[id].pending == "" && d.sessions[id].streamed == ""
  {
    var marked := c.sessions[id].(lastUserAt := Some(w.now));
    var d := TurnLifecycle.Store(c, id, marked);
    var current := if marked.status != Archived then marked.(status := Active) else marked;
    BeginLeavesNothing(AbortStale(d, id, current), id, Dropped(current), true, w);
  }

  /** So from the message to the answer: a send that starts a turn of an attached session, followed by
      any history of notifications that is orderly for it and by the end of the turn, delivers the
      answer that the notifications told. */
  lemma StartedTurnIsAnswered(c: Conn, id: SessionId, w: World, events: seq<N.Event>, n: N.Notification, nw: N.World)
    requires ConnOk(c) && id in c.sessions && c.sessions[id].attached && Send(c, id, w).1.Started?
    requires var d := Send(c, id, w).0;
             && N.History(d.sessions, d.usedTurns, events)
             && Answers.OrderlyTurn(d.sessions, d.usedTurns, events, id, Answers.Growing(""))
             && var t := N.Final(d.sessions, d.usedTurns, events);
                var p := Answers.AnswerAlong(d.sessions, d.usedTurns, events, id, Answers.Growing(""));
                n.TurnEnd? && !n.failed && N.Addresses(t, n, nw, Some(id)) && IsRecoverable(t[id]) &&
                Answers.Deliverable(t[id], p, n.text)
    requires nw.chatKnown && nw.accepted
    ensures var d := Send(c, id, w).0;
            var t := N.Final(d.sessions, d.usedTurns, events);
            var p := Answers.AnswerAlong(d.sessions, d.usedTurns, events, id, Answers.Growing(""));
            N.Delivers(N.Handled(t, n, nw, Some(id))[id], Answers.AnswerTold(p, n.text), nw)
  {
    assert TurnHasThread(c.sessions[id]);
    StartedRunsAfresh(c, id, w);
    var d := Send(c, id, w).0;
    AfreshHoldsNothing(d.sessions[id], w.turn);
    Answers.TurnDeliversAnswer(d.sessions, d.usedTurns, events, id, Answers.Growing(""), n, nw);
  }

  lemma AfreshHoldsNothing(s: Session, turn: Option<TurnId>)
    requires RunsAfresh(s, turn) && s.attached
    ensures Answers.Holds(s, Answers.Growing(""))
  {
    assert Strip("", IsSpace) == "";
  }

  // ---------------------------------------------------------------- a turn that answers is not stale

  /** The session's last activity is not earlier. */
  predicate ActiveSince(s: Session, time: int) {
    LastActivity(s).Some? && LastActivity(s).value >= time
  }

  lemma ActiveAt(s: Session, time: int)
    requires s.pendingAt == Some(time) || s.lastAgentAt == Some(time)
    ensures ActiveSince(s, time)
  {
    LastActivityIsLatest(s);
  }

  /** While the answer grows, each text that adds to it, flushed or not, is an activity of its time: for
      half a minute from then on no message will take the turn for stale. */
  lemma AnsweringTurnIsNotStale(s: Session, n: N.Notification, w: N.World, latest: string, now: int)
    requires Answers.Holds(s, Answers.Growing(latest)) && Answers.Orderly(Answers.Growing(latest), s, n, w)
    requires Answers.Progressed(Answers.Growing(latest), s, n) != Answers.Growing(latest)
    requires n.Message? ==> n.kind != N.CompletedMessage
    requires now < w.now + STALE_ACTIVE_TURN_SECONDS
    ensures var t := N.Spoken(s, n, w); t.active == s.active && !IsStale(t, now)
  {
    var t := N.Spoken(s, n, w);
    if n.Message? {
      if Answers.IsIncrement(Answers.Growing(latest), s, n) {
        assert R.MergeDelta(s, n.text) == R.Append(n.text);
      } else {
        SnapshotActs(s, n.kind, n.text, w.now, latest);
      }
    } else {
      PartialActs(s, n, w, latest);
    }
    ActiveAt(t, w.now);
  }

  /** So is each thought that is shown. */
  lemma ThinkingTurnIsNotStale(s: Session, n: N.Notification, w: N.World, now: int)
    requires N.AcceptsOutput(s, N.TurnOf(n)) && w.due && now < w.now + STALE_ACTIVE_TURN_SECONDS
    requires n.Thinking? || n.Unrelated? || (n.Message? && (n.commentary != "" || (n.text == "" && n.aside)))
    ensures var t := N.Spoken(s, n, w); t.active == s.active && t.hasMessages == w.messages && !IsStale(t, now)
  {
    ActiveAt(N.Spoken(s, n, w), w.now);
  }

  lemma SnapshotActs(s: Session, kind: N.MessageKind, text: string, now: int, latest: string)
    requires Answers.Holds(s, Answers.Growing(latest)) && kind != N.CompletedMessage && text != "" && text != latest
    requires s.phase == Commentary || latest <= text
    ensures N.Heard(s, kind, text, now).pendingAt == Some(now)
  {
    if s.phase != Commentary { R.GrowingSnapshotActions(s, text); }
  }

  lemma PartialActs(s: Session, n: N.Notification, w: N.World, latest: string)
    requires n.Partial? && n.text != "" && N.AcceptsOutput(s, N.TurnOf(n))
    requires Answers.Holds(s, Answers.Growing(latest)) && Answers.Orderly(Answers.Growing(latest), s, n, w)
    ensures var t := N.Spoken(s, n, w); t.pendingAt == Some(w.now) || t.lastAgentAt == Some(w.now)
  {
    var u := s.(pending := s.pending + n.text, pendingAt := Some(w.now));
    if w.due && !Blank(u.pending) {
      R.FlushTextIsAnswerExactly(u);
      assert |R.Combined(u)| > |u.delivered|;
    }
  }
}
