/** What a starting service does with sessions that an earlier run left in the middle of a turn. */
module Recovery {
  import opened Options
  import opened SessionRecords
  import opened SessionStore
  import opened TurnLifecycle
  import Sleep
  import N = Notifications

  predicate IsInflight(s: Session) {
    s.status == RecoveringTurn || s.status == RunningTurn
  }

  predicate KeepsTurn(s: Session, now: int) {
    s.active.Some? && !IsStale(s, now)
  }

  predicate HasLeftovers(s: Session, thinking: bool) {
    s.active.Some? || s.pending != "" || s.streamed != "" || thinking
  }

  /** `recover_inflight_sessions` for one session; `thinking`: it has a thinking message. */
  function Recovered(s: Session, thinking: bool, now: int): Session {
    if !IsInflight(s) then s
    else if KeepsTurn(s, now) then s.(status := RunningTurn)
    else if HasLeftovers(s, thinking) then
      s.(active := None, pending := "", pendingAt := None, delivered := "", completed := None, streamed := "",
         phase := NoPhase, status := Active)
    else s.(status := Active)
  }

  function AllRecovered(sessions: Sessions, thinking: set<SessionId>, now: int): Sessions {
    map id | id in sessions :: Recovered(sessions[id], id in thinking, now)
  }

  method RecoverSession(session: Session, thinking: bool, now: int) returns (s: Session, changed: bool)
    ensures s == Recovered(session, thinking, now)
    ensures changed <==> s != session
  {
    s, changed := session, false;
    if s.status != RecoveringTurn && s.status != RunningTurn {
      return;
    }
    if s.active.Some? && !IsStale(s, now) {
      if s.status != RunningTurn {
        s := s.(status := RunningTurn);
        changed := true;
      }
      return;
    }
    if s.active.Some? || s.pending != "" || s.streamed != "" || thinking {
      s := s.(active := None, pending := "", pendingAt := None, delivered := "", completed := None,
              streamed := "", phase := NoPhase);
      changed := true;
    }
    if s.status != Active {
      s := s.(status := Active);
      changed := true;
    }
  }

  /** The whole function over the store, which is written only if some session changed. */
  method RecoverInflightSessions(store: Store, thinking: set<SessionId>, now: int)
    requires store.Valid()
    modifies store
    ensures store.Valid() && store.sessions == AllRecovered(old(store.sessions), thinking, now)
  {
    ghost var before := store.sessions;
    var todo, sessions, changed := store.sessions.Keys, store.sessions, false;
    while todo != {}
      invariant todo <= before.Keys && sessions.Keys == before.Keys
      invariant forall id | id in before ::
                  sessions[id] == if id in todo then before[id] else Recovered(before[id], id in thinking, now)
      invariant store.sessions == before && (!changed ==> sessions == before)
    {
      var id :| id in todo;
      todo := todo - {id};
      var s, differs := RecoverSession(sessions[id], id in thinking, now);
      sessions := sessions[id := s];
      changed := changed || differs;
    }
    assert sessions == AllRecovered(before, thinking, now);
    RecoveryKeepsStore(before, thinking, now);
    if changed {
      store.sessions := sessions;
    }
  }

  lemma RecoveredFields(s: Session, thinking: bool, now: int)
    ensures var t := Recovered(s, thinking, now);
            && t.slot == s.slot && t.attached == s.attached && t.thread == s.thread
            && t.dirty == s.dirty && t.generation == s.generation
            && t.active == if IsInflight(s) && !KeepsTurn(s, now) then None else s.active
  {
  }

  lemma RecoveryKeepsStore(sessions: Sessions, thinking: set<SessionId>, now: int)
    requires TurnsHaveThreads(sessions) && OneAttachedPerSlot(sessions)
    ensures var t := AllRecovered(sessions, thinking, now); TurnsHaveThreads(t) && OneAttachedPerSlot(t)
  {
    var t := AllRecovered(sessions, thinking, now);
    forall id | id in t ensures t[id].slot == sessions[id].slot && t[id].attached == sessions[id].attached && TurnHasThread(t[id]) {
      assert TurnHasThread(sessions[id]);
      RecoveredFields(sessions[id], id in thinking, now);
    }
    forall i, j ensures !ShareSlot(t, i, j) { assert !ShareSlot(sessions, i, j); }
  }

  // ---------------------------------------------------------------- what recovery keeps and drops

  /** The answer text that waited for delivery survives exactly if there is none, the session was
      not in a turn, or its turn is kept. */
  lemma PendingSurvivesExactly(s: Session, thinking: bool, now: int)
    ensures Recovered(s, thinking, now).pending == s.pending <==>
            s.pending == "" || !IsInflight(s) || KeepsTurn(s, now)
  {
  }

  /** For one: half a minute after the last activity, a running turn and its waiting text are dropped. */
  lemma StaleTurnLosesText(slot: Slot, now: int)
    ensures var s := NewSession(slot, 0).(status := RunningTurn, thread := Some(1), active := Some(2), pending := "x",
                                          pendingAt := Some(now - STALE_ACTIVE_TURN_SECONDS));
            Recovered(s, false, now).pending == "" && Recovered(s, false, now).active == None
  {
  }

  /** After recovery a session is in a turn only if that turn is not stale, and otherwise nothing of an
      interrupted answer is left in it, so that its next turn begins afresh; its place, its thread and
      what its agent was told stay. */
  lemma RecoveredIsReady(s: Session, thinking: bool, now: int)
    requires IsInflight(s)
    ensures var t := Recovered(s, thinking, now);
            if t.active.Some? then t == s.(status := RunningTurn) && !IsStale(t, now)
            else t.status == Active && t.pending == "" && t.streamed == "" && t.thread == s.thread &&
                 (HasLeftovers(s, thinking) ==> t.delivered == "" && t.completed.None?) &&
                 t.slot == s.slot && t.attached == s.attached && t.dirty == s.dirty && t.generation == s.generation
  {
  }

  /** A dropped turn is not remembered: late output of it, or of any turn, still reaches the session if
      it has a thread. */
  lemma DroppedTurnIsNotSilenced(sessions: Sessions, thinking: set<SessionId>, now: int, id: SessionId, turn: TurnId)
    requires id in sessions && IsInflight(sessions[id]) && !KeepsTurn(sessions[id], now)
    requires HasLeftovers(sessions[id], id in thinking) && sessions[id].thread.Some?
    ensures N.CanBeDisturbed(AllRecovered(sessions, thinking, now), id)
  {
    LateOutputDisturbs(AllRecovered(sessions, thinking, now), id, Some(turn));
  }

  /** Marking running turns first makes no difference to what recovery does. */
  lemma MarkingChangesNoRecovery(s: Session, thinking: bool, now: int)
    ensures Recovered(Recovering(s), thinking, now) == Recovered(s, thinking, now)
  {
  }

  /** Of the attached sessions that are not archived, those found for writing are exactly those that
      refuse no message. */
  lemma WritableExactly(c: Conn, id: SessionId, w: World)
    requires id in c.sessions && c.sessions[id].attached && IsRecoverable(c.sessions[id])
    ensures IsWritable(c.sessions[id]) <==> Send(c, id, w).1 != Refused
  {
    SendRefusesExactly(c, id, w);
  }

  // ---------------------------------------------------------------- a new connection

  /** A restart: the stored sessions are recovered, and a new connection starts. */
  function Restarted(sessions: Sessions, sleep: Sleep.State, thinking: set<SessionId>, now: int): Conn {
    Conn(AllRecovered(sessions, thinking, now), sleep, {}, map[], {}, [], map[])
  }

  /** The invariant of the new connection holds, and one session per slot is attached. */
  lemma RestartStartsWell(sessions: Sessions, sleep: Sleep.State, thinking: set<SessionId>, now: int)
    requires TurnsHaveThreads(sessions) && OneAttachedPerSlot(sessions) && Sleep.CleanMeansCurrent(sessions, sleep)
    ensures Fresh(Restarted(sessions, sleep, thinking, now))
    ensures OneAttachedPerSlot(AllRecovered(sessions, thinking, now))
  {
    var t := AllRecovered(sessions, thinking, now);
    RecoveryKeepsStore(sessions, thinking, now);
    forall id | id in t ensures Sleep.UpToDate(t[id], sleep) {
      assert Sleep.UpToDate(sessions[id], sleep);
      RecoveredFields(sessions[id], id in thinking, now);
    }
  }

  ghost predicate NoneRecovering(sessions: Sessions) {
    forall id | id in sessions :: sessions[id].status != RecoveringTurn
  }

  lemma SendRefusesExactly(c: Conn, id: SessionId, w: World)
    requires id in c.sessions
    ensures Send(c, id, w).1 == Refused <==> c.sessions[id].status == RecoveringTurn
  {
  }

  /** Only a recovering record puts a recovering record into the store. */
  predicate StoredSettled(c: Conn, id: SessionId) {
    id in c.sessions && c.sessions[id].status != RecoveringTurn
  }

  lemma AskThreadSettled(c: Conn, id: SessionId, s: Session, answer: Option<ThreadId>)
    requires s.status != RecoveringTurn
    ensures var (d, t) := AskThread(c, id, s, answer); StoredSettled(d, id) && t.status == s.status
  {
  }

  lemma ReadyThreadSettled(c: Conn, id: SessionId, s: Session, w: World)
    requires StoredSettled(c, id) && s.status != RecoveringTurn
    ensures var (d, t) := ReadyThread(c, id, s, w); StoredSettled(d, id) && t.status == s.status
  {
    if s.thread.None? {
      AskThreadSettled(c, id, s, w.firstThread);
      var (d, t) := AskThread(c, id, s, w.firstThread);
      AskThreadSettled(d, id, t, w.secondThread);
    } else if s.thread.value !in c.resumed && w.resume.None? {
      var t := s.(thread := None);
      AskThreadSettled(TurnLifecycle.Store(c, id, t), id, t, w.secondThread);
    }
  }

  lemma BeginSettled(c: Conn, id: SessionId, s: Session, recovered: bool, w: World)
    requires StoredSettled(c, id) && s.status != RecoveringTurn
    ensures StoredSettled(Begin(c, id, s, recovered, w).0, id)
  {
    var (preface, told) := Sleep.TurnInput(s, c.sleep);
    ReadyThreadSettled(c, id, told, w);
    var (d, ready) := ReadyThread(c, id, told, w);
    if ready.thread.Some? {
      var blank := ready.(delivered := "", streamed := "", phase := NoPhase);
      assert StoredSettled(TurnLifecycle.Store(d, id, blank), id);
    }
  }

  lemma SendSettled(c: Conn, id: SessionId, w: World)
    requires StoredSettled(c, id)
    ensures StoredSettled(Send(c, id, w).0, id)
  {
    var marked := c.sessions[id].(lastUserAt := Some(w.now));
    var d := TurnLifecycle.Store(c, id, marked);
    var current := if marked.status != Archived then marked.(status := Active) else marked;
    if current.active.None? {
      BeginSettled(d, id, current, false, w);
    } else if IsStale(c.sessions[id], w.now) {
      BeginSettled(AbortStale(d, id, current), id, Dropped(current), true, w);
    } else if current.thread.None? {
      var forgotten := Dropped(current).(hasMessages := false);
      BeginSettled(TurnLifecycle.Store(d, id, forgotten), id, forgotten, true, w);
    }
  }

  lemma HeardSettled(s: Session, kind: N.MessageKind, text: string, now: int)
    ensures N.Heard(s, kind, text, now).status == s.status
  {
  }

  lemma PartialSettled(s: Session, w: N.World)
    ensures N.MaybeFlushed(s, w).status == s.status
  {
  }

  lemma SpokenSettled(s: Session, n: N.Notification, w: N.World)
    ensures N.Spoken(s, n, w).status == s.status
  {
    match n
    case Message(_, _, _, kind, _, text, _) => HeardSettled(s, kind, text, w.now);
    case Partial(_, _, _, text) =>
      PartialSettled(if text != "" then s.(pending := s.pending + text, pendingAt := Some(w.now)) else s, w);
    case _ =>
  }

  lemma FlushedSettled(s: Session, w: N.World)
    requires s.status != RecoveringTurn
    ensures N.FlushedFinal(s, w).status != RecoveringTurn
  {
  }

  lemma ClosedSettled(s: Session, failed: bool, errorNamesThread: bool, w: N.World)
    requires s.status == Active
    ensures N.Settled(s, failed, errorNamesThread, w).status != RecoveringTurn
  {
    FlushedSettled(s, w);
    var u := N.WithoutPending(s, w).0;
    assert u.status == Active;
    FlushedSettled(u, w);
  }

  lemma EndedSettled(s: Session, turn: TurnId, failed: bool, errorNamesThread: bool, text: string, w: N.World)
    ensures N.Ended(s, turn, failed, errorNamesThread, text, w).status != RecoveringTurn
  {
    ClosedSettled(N.Closed(N.WithCompletion(s, text, w.now), turn), failed, errorNamesThread, w);
  }

  lemma NotifySettled(sessions: Sessions, n: N.Notification, w: N.World, target: Option<SessionId>)
    requires NoneRecovering(sessions)
    ensures NoneRecovering(N.Handled(sessions, n, w, target))
  {
    if target.Some? && target.value in sessions {
      var s := sessions[target.value];
      if n.TurnEnd? && N.TurnOf(n).Some? {
        EndedSettled(s, N.TurnOf(n).value, n.failed, n.errorNamesThread, n.text, w);
      }
      SpokenSettled(s, n, w);
    }
  }

  predicate Marks(step: Step) {
    step.StoreOp? && step.op.MarkAll?
  }

  lemma StepSettled(c: Conn, step: Step)
    requires NoneRecovering(c.sessions) && Possible(c, step) && !Marks(step)
    ensures NoneRecovering(Next(c, step).sessions)
  {
    match step {
      case SendTo(id, w) =>
        SendSettled(c, id, w);
        forall j | j in Next(c, step).sessions && j != id ensures Next(c, step).sessions[j].status != RecoveringTurn {
          SendOthers(c, id, w, j);
        }
      case Notify(n, nw, target) => NotifySettled(c.sessions, n, nw, target);
      case _ =>
    }
  }

  lemma {:induction false} RunSettled(c: Conn, steps: seq<Step>)
    requires NoneRecovering(c.sessions) && Runs(c, steps) && forall step | step in steps :: !Marks(step)
    ensures NoneRecovering(Exec(c, steps).sessions)
    decreases |steps|
  {
    if steps != [] {
      assert steps[0] in steps;
      StepSettled(c, steps[0]);
      RunSettled(Next(c, steps[0]), steps[1..]);
    }
  }

  /** After a restart no message is ever refused, whatever state the earlier run left, and whatever
      happens on the connection: only `mark_recovering_turns`, which nothing calls, could bring the
      refusal back. */
  lemma NoSendIsEverRefused(sessions: Sessions, sleep: Sleep.State, thinking: set<SessionId>, now: int,
                            steps: seq<Step>, id: SessionId, w: World)
    requires var c := Restarted(sessions, sleep, thinking, now);
             Runs(c, steps) && (forall step | step in steps :: !Marks(step)) && id in Exec(c, steps).sessions
    ensures var c := Restarted(sessions, sleep, thinking, now);
            Send(Exec(c, steps), id, w).1 != Refused
  {
    var c := Restarted(sessions, sleep, thinking, now);
    assert NoneRecovering(c.sessions);
    RunSettled(c, steps);
    SendRefusesExactly(Exec(c, steps), id, w);
  }
}
