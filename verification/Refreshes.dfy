/** What the agent of a session is told when a turn starts, exactly: the refresh after missed
    generations, and the session instructions on a new thread. */
module Refreshes {
  import opened Options
  import opened SessionRecords
  import opened Sleep
  import opened TurnLifecycle
  import N = Notifications

  // ---------------------------------------------------------------- which sends fail

  /** The send starts a turn, or tries to. */
  predicate Begins(s: Session, w: World) {
    s.status != RecoveringTurn && (s.active.None? || IsStale(s, w.now) || s.thread.None?)
  }

  /** Resuming, the first start or the retry names a thread. */
  predicate ThreadObtained(s: Session, resumed: set<ThreadId>, w: World) {
    match s.thread
    case None => w.firstThread.Some? || w.secondThread.Some?
    case Some(thread) => thread in resumed || w.resume.Some? || w.secondThread.Some?
  }

  predicate SendFails(c: Conn, id: SessionId, w: World)
    requires id in c.sessions
  {
    Begins(c.sessions[id], w) && !(ThreadObtained(c.sessions[id], c.resumed, w) && w.turn.Some?)
  }

  lemma ThreadObtainedExactly(c: Conn, id: SessionId, s: Session, w: World)
    ensures ReadyThread(c, id, s, w).1.thread.Some? <==> ThreadObtained(s, c.resumed, w)
  {
  }

  lemma BeginFailsExactly(c: Conn, id: SessionId, s: Session, recovered: bool, w: World)
    ensures Fails(Begin(c, id, s, recovered, w).1) <==> !(ThreadObtained(s, c.resumed, w) && w.turn.Some?)
  {
    var told := TurnInput(s, c.sleep).1;
    TurnInputGeneration(s, c.sleep);
    ThreadObtainedExactly(c, id, told, w);
  }

  /** The connection and record from which a send begins its turn: what the refresh depends on is
      as it was stored before the send. */
  ghost predicate BeginsFrom(c: Conn, id: SessionId, d: Conn, s: Session) {
    id in c.sessions && id in d.sessions &&
    var was := c.sessions[id];
    && d.sleep == c.sleep && d.resumed == c.resumed && d.told == c.told
    && s.thread == was.thread && s.dirty == was.dirty && s.generation == was.generation
    && d.sessions[id].generation == was.generation
    && s.active.None? && d.sessions[id].active.None?
  }

  lemma SendBegins(c: Conn, id: SessionId, w: World) returns (d: Conn, s: Session, recovered: bool)
    requires id in c.sessions && TurnHasThread(c.sessions[id]) && Begins(c.sessions[id], w)
    ensures BeginsFrom(c, id, d, s) && Send(c, id, w) == Begin(d, id, s, recovered, w)
  {
    var marked := c.sessions[id].(lastUserAt := Some(w.now));
    d := TurnLifecycle.Store(c, id, marked);
    s := if marked.status != Archived then marked.(status := Active) else marked;
    recovered := s.active.Some?;
    if recovered {
      d := AbortStale(d, id, s);
      s := Dropped(s);
    }
  }

  /** Which sends fail, and which start a turn, can be read off before the call. */
  lemma SendFailsExactly(c: Conn, id: SessionId, w: World)
    requires id in c.sessions && TurnHasThread(c.sessions[id])
    ensures Fails(Send(c, id, w).1) <==> SendFails(c, id, w)
    ensures Send(c, id, w).1.Started? <==> Begins(c.sessions[id], w) && !SendFails(c, id, w)
  {
    if Begins(c.sessions[id], w) {
      var d, s, recovered := SendBegins(c, id, w);
      BeginFailsExactly(d, id, s, recovered, w);
    }
  }

  // ---------------------------------------------------------------- one send

  /** A failing send that nevertheless records the current generation as seen. */
  predicate LosesRefresh(c: Conn, id: SessionId, w: World)
    requires id in c.sessions
  {
    var s := c.sessions[id];
    SendFails(c, id, w) && s.dirty && s.thread.Some? && s.generation < c.sleep.generation
  }

  lemma TurnInputGeneration(s: Session, sleep: State)
    ensures TurnInput(s, sleep).1 == s.(generation := TurnInput(s, sleep).1.generation)
    ensures TurnInput(s, sleep).1.generation ==
            if s.dirty && s.thread.Some? && s.generation < sleep.generation then sleep.generation else s.generation
  {
  }

  /** Only the session's record, its thread and the calls differ. */
  ghost predicate Readied(c: Conn, id: SessionId, s: Session, d: Conn, t: Session) {
    && d.told == c.told && d.sleep == c.sleep && t == s.(thread := t.thread)
    && id in d.sessions && d.sessions[id].active.None?
  }

  lemma AskThreadGeneration(c: Conn, id: SessionId, s: Session, answer: Option<ThreadId>)
    requires s.active.None?
    ensures var (d, t) := AskThread(c, id, s, answer);
            Readied(c, id, s, d, t) && d.sessions[id].generation == s.generation
  {
  }

  lemma ReadyThreadGeneration(c: Conn, id: SessionId, s: Session, w: World)
    requires id in c.sessions && s.active.None? && c.sessions[id].active.None?
    ensures var (d, t) := ReadyThread(c, id, s, w);
            Readied(c, id, s, d, t) && (t.thread.None? ==> d.sessions[id].generation == s.generation)
  {
    if s.thread.None? {
      AskThreadGeneration(c, id, s, w.firstThread);
      var (d, t) := AskThread(c, id, s, w.firstThread);
      AskThreadGeneration(d, id, t, w.secondThread);
    } else if s.thread.value !in c.resumed && w.resume.None? {
      var t := s.(thread := None);
      AskThreadGeneration(TurnLifecycle.Store(c, id, t), id, t, w.secondThread);
    }
  }

  lemma BeginGeneration(c: Conn, id: SessionId, s: Session, recovered: bool, w: World)
    requires id in c.sessions && s.active.None? && c.sessions[id].active.None?
    ensures var (d, outcome) := Begin(c, id, s, recovered, w);
            id in d.sessions && d.sleep == c.sleep &&
            if outcome.Started? then d.sessions[id].generation == c.sleep.generation && d.told == c.told[id := c.sleep.generation]
            else d.told == c.told && d.sessions[id].generation == TurnInput(s, c.sleep).1.generation
  {
    var told := TurnInput(s, c.sleep).1;
    TurnInputGeneration(s, c.sleep);
    ReadyThreadGeneration(c, id, told, w);
    var (d, ready) := ReadyThread(c, id, told, w);
    if ready.thread.Some? {
      var blank := ready.(delivered := "", streamed := "", phase := NoPhase);
      assert TurnLifecycle.Store(d, id, blank).sessions[id].generation == told.generation;
    }
  }

  /** What a send does to the generation on record, and to the one that the agent was told of. */
  lemma SendGeneration(c: Conn, id: SessionId, w: World)
    requires id in c.sessions && TurnHasThread(c.sessions[id])
    ensures var (d, outcome) := Send(c, id, w);
            id in d.sessions && d.sleep == c.sleep &&
            if outcome.Started? then d.sessions[id].generation == c.sleep.generation && d.told == c.told[id := c.sleep.generation]
            else d.told == c.told &&
                 d.sessions[id].generation == if LosesRefresh(c, id, w) then c.sleep.generation else c.sessions[id].generation
  {
    if Begins(c.sessions[id], w) {
      var d, s, recovered := SendBegins(c, id, w);
      SendFailsExactly(c, id, w);
      TurnInputGeneration(s, c.sleep);
      BeginGeneration(d, id, s, recovered, w);
    } else {
      var s := c.sessions[id];
      assert s.status != RecoveringTurn ==> Send(c, id, w).1 == Steered;
    }
  }

  /** A send keeps the record honest exactly if it does not fail while the session, on an existing
      thread, has a refresh to come. */
  lemma SendKeepsRecordExactly(c: Conn, id: SessionId, w: World)
    requires id in c.sessions && TurnHasThread(c.sessions[id]) && RecordTells(c, id)
    ensures RecordTells(Send(c, id, w).0, id) <==> !LosesRefresh(c, id, w)
  {
    SendGeneration(c, id, w);
    SendFailsExactly(c, id, w);
  }

  // ---------------------------------------------------------------- whole runs

  /** Whether a refresh is lost after the step: a failing send lost it, and the session has neither
      started a turn since nor been removed. */
  ghost predicate LostAfter(c: Conn, step: Step, id: SessionId, lost: bool)
    requires Possible(c, step)
  {
    && id in Next(c, step).sessions
    && if step.SendTo? && step.id == id
       then !Send(c, id, step.w).1.Started? && (lost || LosesRefresh(c, id, step.w))
       else lost
  }

  /** Whether some send of the run lost the refresh of the session, with no turn of the session
      started since. */
  ghost predicate RefreshLost(c: Conn, steps: seq<Step>, id: SessionId, lost: bool := false)
    requires Runs(c, steps)
    decreases |steps|
  {
    if steps == [] then lost else RefreshLost(Next(c, steps[0]), steps[1..], id, LostAfter(c, steps[0], id, lost))
  }

  /** The record is never behind what the agent was told, and ahead of it exactly if a refresh is lost. */
  ghost predicate RecordAhead(c: Conn, id: SessionId, lost: bool) {
    if id in c.sessions then
      var told, recorded := ToldGeneration(c, id), c.sessions[id].generation;
      told <= recorded <= c.sleep.generation && (lost <==> told < recorded)
    else !lost
  }

  lemma SendKeepsAhead(c: Conn, id: SessionId, w: World, lost: bool)
    requires ConnOk(c) && id in c.sessions && RecordAhead(c, id, lost)
    requires w.turn.Some? ==> w.turn.value !in c.usedTurns
    ensures RecordAhead(Send(c, id, w).0, id, LostAfter(c, SendTo(id, w), id, lost))
  {
    assert TurnHasThread(c.sessions[id]);
    SendGeneration(c, id, w);
    SendFailsExactly(c, id, w);
  }

  lemma StepKeepsAhead(c: Conn, step: Step, id: SessionId, lost: bool)
    requires ConnOk(c) && Possible(c, step) && RecordAhead(c, id, lost)
    ensures RecordAhead(Next(c, step), id, LostAfter(c, step, id, lost))
  {
    if step.SendTo? {
      if step.id == id { SendKeepsAhead(c, id, step.w, lost); } else { OtherSendKeepsAhead(c, step.id, step.w, id, lost); }
    } else {
      OtherStepKeepsAhead(c, step, id, lost);
    }
  }

  lemma OtherStepKeepsAhead(c: Conn, step: Step, id: SessionId, lost: bool)
    requires ConnOk(c) && Possible(c, step) && RecordAhead(c, id, lost) && !step.SendTo?
    ensures RecordAhead(Next(c, step), id, lost && id in Next(c, step).sessions)
  {
    if step.Notify? && id in c.sessions {
      N.HandledKeeps(c.sessions, step.n, step.nw, step.target, id);
    } else if step.InterruptAt? && id in c.sessions {
      assert TurnHasThread(c.sessions[step.id]);
    }
  }

  lemma OtherSendKeepsAhead(c: Conn, other: SessionId, w: World, id: SessionId, lost: bool)
    requires ConnOk(c) && other in c.sessions && other != id && RecordAhead(c, id, lost)
    ensures RecordAhead(Send(c, other, w).0, id, lost && id in Send(c, other, w).0.sessions)
  {
    assert TurnHasThread(c.sessions[other]);
    SendOthers(c, other, w, id);
    SendGeneration(c, other, w);
  }

  lemma {:induction false} RunKeepsAhead(c: Conn, steps: seq<Step>, id: SessionId, lost: bool)
    requires ConnOk(c) && Runs(c, steps) && RecordAhead(c, id, lost)
    ensures ConnOk(Exec(c, steps)) && RecordAhead(Exec(c, steps), id, RefreshLost(c, steps, id, lost))
    decreases |steps|
  {
    if steps != [] {
      StepOk(c, steps[0]);
      StepKeepsAhead(c, steps[0], id, lost);
      RunKeepsAhead(Next(c, steps[0]), steps[1..], id, LostAfter(c, steps[0], id, lost));
    }
  }

  // ---------------------------------------------------------------- what a turn starts with

  lemma PrefaceDependsOn(s: Session, t: Session, sleep: State)
    requires s.dirty == t.dirty && s.thread == t.thread && s.generation == t.generation
    ensures TurnInput(s, sleep).0 == TurnInput(t, sleep).0
  {
  }

  /** A turn that a send starts begins with what the stored record calls for. */
  lemma SendStartsWith(c: Conn, id: SessionId, w: World)
    requires id in c.sessions && TurnHasThread(c.sessions[id]) && Send(c, id, w).1.Started?
    ensures StartedWith(Send(c, id, w).0, id, TurnInput(c.sessions[id], c.sleep).0)
  {
    SendFailsExactly(c, id, w);
    var d, s, recovered := SendBegins(c, id, w);
    BeginStartsWith(d, id, s, recovered, w);
    PrefaceDependsOn(s, c.sessions[id], c.sleep);
  }

  /** Every generation has its lesson. */
  ghost predicate LessonsComplete(s: State) {
    forall g | 0 < g <= s.generation :: g in s.lessons
  }

  lemma {:induction false} RunKeepsLessons(c: Conn, steps: seq<Step>)
    requires ConnOk(c) && Runs(c, steps) && LessonsComplete(c.sleep)
    ensures LessonsComplete(Exec(c, steps).sleep)
    decreases |steps|
  {
    if steps != [] {
      var step := steps[0];
      StepOk(c, step);
      if step.SendTo? {
        assert TurnHasThread(c.sessions[step.id]);
        SendGeneration(c, step.id, step.w);
      }
      RunKeepsLessons(Next(c, step), steps[1..]);
    }
  }

  /** The preface tells everything since generation `told` exactly if the record stands there, or
      the full refresh is due anyway. */
  lemma PrefaceTellsExactly(s: Session, sleep: State, told: nat)
    requires LessonsComplete(sleep) && UpToDate(s, sleep) && s.attached && s.thread.Some?
    requires told <= s.generation <= sleep.generation && told < sleep.generation
    ensures var preface := TurnInput(s, sleep).0;
            (preface == FullRefresh || preface == Lessons(MissedLessons(sleep.lessons, told, sleep.generation)))
            <==> (told == s.generation || Refresh(sleep, s.generation).0 == FullRefresh)
  {
    MissedLessonsComplete(sleep.lessons, told, sleep.generation);
    MissedLessonsComplete(sleep.lessons, s.generation, sleep.generation);
  }

  /** After any run, failing sends included: a turn started on the existing thread of an attached
      session tells its agent all it missed if and only if no failing send has lost a refresh since
      the agent was last told, or so much has happened since that send that the full refresh is due. */
  lemma RefreshToldExactly(c: Conn, steps: seq<Step>, id: SessionId, w: World)
    requires Fresh(c) && Honest(c) && LessonsComplete(c.sleep) && Runs(c, steps)
    requires id in c.sessions ==> c.sessions[id].generation <= c.sleep.generation
    requires var d := Exec(c, steps);
             id in d.sessions && d.sessions[id].attached && d.sessions[id].thread.Some? &&
             ToldGeneration(d, id) < d.sleep.generation && Send(d, id, w).1.Started?
    ensures var d := Exec(c, steps);
            TellsMissed(Send(d, id, w).0, id, ToldGeneration(d, id), d.sleep) <==>
            (!RefreshLost(c, steps, id) || Refresh(d.sleep, d.sessions[id].generation).0 == FullRefresh)
  {
    assert RecordTells(c, id);
    RunKeepsAhead(c, steps, id, false);
    RunKeepsLessons(c, steps);
    var d := Exec(c, steps);
    assert UpToDate(d.sessions[id], d.sleep) && TurnHasThread(d.sessions[id]);
    SendStartsWith(d, id, w);
    PrefaceTellsExactly(d.sessions[id], d.sleep, ToldGeneration(d, id));
  }

  // ---------------------------------------------------------------- session instructions

  /** A started turn carries the session instructions if and only if the record had no thread and
      was still to be instructed when the message came; whether the thread is new does not matter. */
  lemma InstructedExactly(c: Conn, id: SessionId, w: World)
    requires id in c.sessions && TurnHasThread(c.sessions[id]) && Send(c, id, w).1.Started?
    ensures StartedWith(Send(c, id, w).0, id, SessionStart) <==> c.sessions[id].dirty && c.sessions[id].thread.None?
  {
    SendStartsWith(c, id, w);
  }

  /** So the first turn on a new thread can go without them. The first `turn/start` of a new session
      fails; the next message finds the thread saved, and its turn, the first on it, starts bare. */
  lemma FailedFirstStartLosesInstructions(c: Conn, id: SessionId, slot: Slot, w: World, again: World)
    requires id in c.sessions && c.sessions[id] == NewSession(slot, w.now) && c.sleep.generation == 0
    requires w.firstThread.Some? && w.turn.None? && again.turn.Some?
    ensures var (d, outcome) := Send(c, id, w);
            outcome.TurnNotStarted? && id in d.sessions &&
            Send(d, id, again).0.calls ==
            c.calls + [StartThread] + [StartTurn(w.firstThread.value, id, Nothing, false, again.text)]
  {
    var d := Send(c, id, w).0;
    var thread := w.firstThread.value;
    assert d.sessions[id].thread == Some(thread) && thread in d.resumed && d.calls == c.calls + [StartThread];
    assert d.sessions[id].active.None? && d.sessions[id].status == Active && d.sleep == c.sleep;
    SavedThreadStartsBare(d, id, thread, again);
  }

  lemma SavedThreadStartsBare(c: Conn, id: SessionId, thread: ThreadId, w: World)
    requires id in c.sessions && w.turn.Some?
    requires var s := c.sessions[id];
             s.status == Active && s.active.None? && s.thread == Some(thread) && s.generation >= c.sleep.generation
    requires thread in c.resumed
    ensures Send(c, id, w).0.calls == c.calls + [StartTurn(thread, id, Nothing, false, w.text)]
  {
  }

  /** And when `thread/resume` raises for an instructed session, the thread that replaces the lost
      one is never instructed: its first turn starts bare. */
  lemma ReplacedThreadStartsBare(c: Conn, id: SessionId, w: World)
    requires id in c.sessions && w.resume.None? && w.secondThread.Some? && w.turn.Some?
    requires var s := c.sessions[id];
             s.status == Active && s.active.None? && !s.dirty && s.thread.Some? && s.thread.value !in c.resumed
    ensures Send(c, id, w).0.calls ==
            c.calls + [StartThread] + [StartTurn(w.secondThread.value, id, Nothing, false, w.text)]
  {
  }
}
