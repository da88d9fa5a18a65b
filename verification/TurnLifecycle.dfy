/** `AppServerSession`: starting, steering and interrupting turns over one connection, and the
    server that holds the turns. */
module TurnLifecycle {
  import opened Options
  import opened SessionRecords
  import opened SessionStore
  import opened Sleep
  import N = Notifications

  const STALE_ACTIVE_TURN_SECONDS := 30

  /** A call to the server that succeeded. */
  datatype Call =
    | Interrupt(turn: TurnId)
    | Steer(thread: ThreadId, turn: TurnId, text: string)
    | Resume(thread: ThreadId)
    | StartThread
    | StartTurn(thread: ThreadId, id: SessionId, preface: Preface, recovered: bool, text: string)

  /** One connection: the stored sessions and sleep state, the threads this connection has started
      or resumed, the turns the server holds open and for whom, turn ids ever used, the calls, and
      the generation that the agent of each session was last told of. */
  datatype Conn = Conn(
    sessions: Sessions,
    sleep: State,
    resumed: set<ThreadId>,
    open: map<TurnId, SessionId>,
    usedTurns: set<TurnId>,
    calls: seq<Call>,
    told: map<SessionId, nat>)

  /** The message of one send, and what the clock and the server contribute. `resume`: nothing if the call raises,
      else the thread id it names, if any. `turn`: nothing if `turn/start` raises. */
  datatype World = World(
    text: string,
    now: int,
    resume: Option<Option<ThreadId>>,
    firstThread: Option<ThreadId>,
    secondThread: Option<ThreadId>,
    turn: Option<TurnId>)

  datatype Outcome = Refused | Steered | Started(recovered: bool) | NoThread | TurnNotStarted

  // ---------------------------------------------------------------- staleness

  function Later(a: Option<int>, b: Option<int>): Option<int> {
    match (a, b)
    case (None, _) => b
    case (_, None) => a
    case (Some(x), Some(y)) => if x < y then b else a
  }

  function LastActivity(s: Session): Option<int> {
    Later(Later(s.lastUserAt, s.pendingAt), s.lastAgentAt)
  }

  /** `is_stale_active_turn` */
  predicate IsStale(s: Session, now: int) {
    s.active.Some? && LastActivity(s).Some? && now - LastActivity(s).value >= STALE_ACTIVE_TURN_SECONDS
  }

  predicate NoLater(a: Option<int>, b: Option<int>) {
    a.Some? ==> b.Some? && a.value <= b.value
  }

  /** The last activity is one of the three times on record, and none of them is later. */
  lemma LastActivityIsLatest(s: Session)
    ensures var last := LastActivity(s);
            (last == s.lastUserAt || last == s.pendingAt || last == s.lastAgentAt) &&
            NoLater(s.lastUserAt, last) && NoLater(s.pendingAt, last) && NoLater(s.lastAgentAt, last)
  {
  }

  // ---------------------------------------------------------------- the pieces of a send

  function Store(c: Conn, id: SessionId, s: Session): Conn {
    c.(sessions := Saved(c.sessions, id, s))
  }

  function Called(c: Conn, call: Call): Conn {
    c.(calls := c.calls + [call])
  }

  /** The turn is dropped together with what it streamed. */
  function Dropped(s: Session): Session {
    s.(active := None, pending := "", pendingAt := None, streamed := "", phase := NoPhase, status := Active)
  }

  /** The server no longer holds the turn open. */
  function Closed(c: Conn, turn: TurnId): Conn {
    c.(open := c.open - {turn})
  }

  /** A stale turn is interrupted and dropped. */
  function AbortStale(c: Conn, id: SessionId, s: Session): Conn
    requires s.active.Some?
  {
    Store(Closed(Called(c, Interrupt(s.active.value)), s.active.value), id, Dropped(s))
  }

  function SteerTurn(c: Conn, id: SessionId, s: Session, text: string): Conn
    requires s.active.Some? && s.thread.Some?
  {
    Store(Called(c, Steer(s.thread.value, s.active.value, text)), id, s.(status := RunningTurn))
  }

  /** A thread is asked for; it may come without an id. */
  function AskThread(c: Conn, id: SessionId, s: Session, answer: Option<ThreadId>): (Conn, Session) {
    var t := s.(thread := answer);
    var d := Store(Called(c, StartThread), id, t);
    (if answer.Some? then d.(resumed := d.resumed + {answer.value}) else d, t)
  }

  /** `thread/resume`, the first `thread/start`, and the retry. */
  function ReadyThread(c: Conn, id: SessionId, s: Session, w: World): (Conn, Session) {
    if s.thread.Some? then
      var thread := s.thread.value;
      if thread in c.resumed then (c, s)
      else if w.resume.None? then
        var t := s.(thread := None);
        AskThread(Store(c, id, t), id, t, w.secondThread)
      else
        var named := if w.resume.value.Some? then w.resume.value.value else thread;
        var d := Called(c, Resume(thread));
        (d.(resumed := d.resumed + {named}), s.(thread := Some(named)))
    else
      var (d, t) := AskThread(c, id, s, w.firstThread);
      if t.thread.Some? then (d, t) else AskThread(d, id, t, w.secondThread)
  }

  /** A new turn for a session whose record has no active turn. */
  function Begin(c: Conn, id: SessionId, s: Session, recovered: bool, w: World): (Conn, Outcome) {
    var (preface, told) := TurnInput(s, c.sleep);
    var (d, ready) := ReadyThread(c, id, told, w);
    if ready.thread.None? then (d, NoThread)
    else
      var blank := ready.(delivered := "", streamed := "", phase := NoPhase);
      var e := Store(d, id, blank);
      if w.turn.None? then (e, TurnNotStarted)
      else (Launched(e, id, blank, preface, recovered, w.text, w.turn.value), Started(recovered))
  }

  function Launched(c: Conn, id: SessionId, s: Session, preface: Preface, recovered: bool, text: string, turn: TurnId): Conn
    requires s.thread.Some?
  {
    var running := s.(active := Some(turn), pending := "", status := RunningTurn, dirty := false,
                      generation := c.sleep.generation);
    Store(Called(c, StartTurn(s.thread.value, id, preface, recovered, text)), id, running)
      .(open := c.open[turn := id], usedTurns := c.usedTurns + {turn}, told := c.told[id := c.sleep.generation])
  }

  /** `_start_or_steer_turn` */
  function Send(c: Conn, id: SessionId, w: World): (Conn, Outcome)
    requires id in c.sessions
  {
    var s := c.sessions[id];
    if s.status == RecoveringTurn then (c, Refused)
    else
      var marked := s.(lastUserAt := Some(w.now));
      var d := Store(c, id, marked);
      var current := if marked.status != Archived then marked.(status := Active) else marked;
      if current.active.None? then Begin(d, id, current, false, w)
      else if IsStale(s, w.now) then Begin(AbortStale(d, id, current), id, Dropped(current), true, w)
      else if current.thread.None? then
        var forgotten := Dropped(current).(hasMessages := false);
        Begin(Store(d, id, forgotten), id, forgotten, true, w)
      else (SteerTurn(d, id, current, w.text), Steered)
  }

  /** `interrupt` for the session found */
  function Stopped(c: Conn, id: SessionId): Conn
    requires id in c.sessions
  {
    var s := c.sessions[id];
    if s.active.None? then c
    else Store(Closed(Called(c, Interrupt(s.active.value)), s.active.value), id,
               s.(active := None, pending := "", status := Interrupted))
  }

  // ---------------------------------------------------------------- the invariant

  /** The server holds a turn open only for the session whose active turn it is. */
  ghost predicate TurnHeld(c: Conn, turn: TurnId) {
    turn in c.open ==>
      turn in c.usedTurns && c.open[turn] in c.sessions && c.sessions[c.open[turn]].active == Some(turn)
  }

  ghost predicate ThreadReady(c: Conn, call: Call) {
    call.StartTurn? ==> call.thread in c.resumed
  }

  ghost predicate ConnOk(c: Conn) {
    && TurnsHaveThreads(c.sessions)
    && (forall turn :: TurnHeld(c, turn))
    && (forall call | call in c.calls :: ThreadReady(c, call))
    && CleanMeansCurrent(c.sessions, c.sleep)
  }

  /** As `ConnOk`, while session `id` is being worked on: its working record `s` has no active
      turn, and the server holds none for it. */
  ghost predicate Working(c: Conn, id: SessionId, s: Session) {
    && ConnOk(c) && id in c.sessions
    && s.active.None? && c.sessions[id].active.None?
    && UpToDate(s, c.sleep) && s.slot == c.sessions[id].slot
  }

  /** Saving an idle record for an idle session keeps everything. */
  lemma StoreIdle(c: Conn, id: SessionId, s: Session, t: Session)
    requires Working(c, id, s) && t.active.None? && UpToDate(t, c.sleep) && t.slot == s.slot
    ensures Working(Store(c, id, t), id, t) && Store(c, id, t).sessions == c.sessions[id := t]
  {
    StabilizeKeeps(t, Some(c.sessions[id]));
    var d := Store(c, id, t);
    forall turn ensures TurnHeld(d, turn) { assert TurnHeld(c, turn); }
    forall call | call in d.calls ensures ThreadReady(d, call) { assert ThreadReady(c, call); }
    forall j | j in d.sessions ensures UpToDate(d.sessions[j], d.sleep) { assert j != id ==> UpToDate(c.sessions[j], c.sleep); }
  }

  /** A call other than `turn/start`, and more resumed threads, keep everything. */
  lemma CallIdle(c: Conn, id: SessionId, s: Session, call: Call, more: set<ThreadId>)
    requires Working(c, id, s) && !call.StartTurn?
    ensures var d := Called(c, call); Working(d.(resumed := d.resumed + more), id, s)
  {
    var d := Called(c, call).(resumed := c.resumed + more);
    forall turn ensures TurnHeld(d, turn) { assert TurnHeld(c, turn); }
    forall x | x in d.calls ensures ThreadReady(d, x) { assert x in c.calls ==> ThreadReady(c, x); }
  }

  lemma AskThreadWorks(c: Conn, id: SessionId, s: Session, answer: Option<ThreadId>)
    requires Working(c, id, s)
    ensures var (d, t) := AskThread(c, id, s, answer);
            Working(d, id, t) && t == s.(thread := answer) && (answer.Some? ==> answer.value in d.resumed) &&
            d.sleep == c.sleep && d.open == c.open && d.usedTurns == c.usedTurns
  {
    var t := s.(thread := answer);
    var more := if answer.Some? then {answer.value} else {};
    CallIdle(c, id, s, StartThread, more);
    var e := Called(c, StartThread).(resumed := c.resumed + more);
    StoreIdle(e, id, s, t);
    assert c.resumed + {} == c.resumed;
  }

  lemma ReadyThreadWorks(c: Conn, id: SessionId, s: Session, w: World)
    requires Working(c, id, s)
    ensures var (d, t) := ReadyThread(c, id, s, w);
            Working(d, id, t) && t == s.(thread := t.thread) && (t.thread.Some? ==> t.thread.value in d.resumed) &&
            d.sleep == c.sleep && d.open == c.open && d.usedTurns == c.usedTurns
  {
    if s.thread.Some? {
      if s.thread.value !in c.resumed {
        if w.resume.None? {
          var t := s.(thread := None);
          StoreIdle(c, id, s, t);
          AskThreadWorks(Store(c, id, t), id, t, w.secondThread);
        } else {
          var named := if w.resume.value.Some? then w.resume.value.value else s.thread.value;
          CallIdle(c, id, s, Resume(s.thread.value), {named});
        }
      }
    } else {
      AskThreadWorks(c, id, s, w.firstThread);
      var (d, t) := AskThread(c, id, s, w.firstThread);
      if t.thread.None? { AskThreadWorks(d, id, t, w.secondThread); }
    }
  }

  lemma LaunchedOk(c: Conn, id: SessionId, s: Session, preface: Preface, recovered: bool, text: string, turn: TurnId)
    requires Working(c, id, s) && s.thread.Some? && s.thread.value in c.resumed && turn !in c.usedTurns
    ensures ConnOk(Launched(c, id, s, preface, recovered, text, turn))
  {
    var d := Launched(c, id, s, preface, recovered, text, turn);
    var running := s.(active := Some(turn), pending := "", status := RunningTurn, dirty := false, generation := c.sleep.generation);
    StabilizeKeeps(running, Some(c.sessions[id]));
    forall t ensures TurnHeld(d, t) { assert TurnHeld(c, t); }
    forall x | x in d.calls ensures ThreadReady(d, x) { assert x in c.calls ==> ThreadReady(c, x); }
    forall j | j in d.sessions ensures UpToDate(d.sessions[j], d.sleep) { assert j != id ==> UpToDate(c.sessions[j], c.sleep); }
  }

  lemma BeginOk(c: Conn, id: SessionId, s: Session, recovered: bool, w: World)
    requires Working(c, id, s) && (w.turn.Some? ==> w.turn.value !in c.usedTurns)
    ensures ConnOk(Begin(c, id, s, recovered, w).0)
  {
    var (preface, told) := TurnInput(s, c.sleep);
    assert Working(c, id, told);
    ReadyThreadWorks(c, id, told, w);
    var (d, ready) := ReadyThread(c, id, told, w);
    if ready.thread.Some? {
      var blank := ready.(delivered := "", streamed := "", phase := NoPhase);
      StoreIdle(d, id, ready, blank);
      if w.turn.Some? { LaunchedOk(Store(d, id, blank), id, blank, preface, recovered, w.text, w.turn.value); }
    }
  }

  /** Saving a record with the session's own active turn and thread keeps everything. */
  lemma StoreSame(c: Conn, id: SessionId, t: Session)
    requires ConnOk(c) && id in c.sessions && t.active == c.sessions[id].active && t.thread == c.sessions[id].thread
    requires UpToDate(t, c.sleep)
    ensures ConnOk(Store(c, id, t)) && Store(c, id, t).sessions == c.sessions[id := t]
  {
    assert TurnHasThread(c.sessions[id]);
    StabilizeKeeps(t, Some(c.sessions[id]));
    var d := Store(c, id, t);
    forall turn ensures TurnHeld(d, turn) { assert TurnHeld(c, turn); }
    forall x | x in d.calls ensures ThreadReady(d, x) { assert ThreadReady(c, x); }
    forall j | j in d.sessions ensures UpToDate(d.sessions[j], d.sleep) { assert j != id ==> UpToDate(c.sessions[j], c.sleep); }
  }

  /** The server closes a turn; the session that had it drops it. */
  lemma ClosedWorks(c: Conn, id: SessionId, turn: TurnId, t: Session)
    requires ConnOk(c) && id in c.sessions && c.sessions[id].active == Some(turn)
    requires t.active.None? && UpToDate(t, c.sleep) && t.slot == c.sessions[id].slot
    ensures Working(Store(Closed(Called(c, Interrupt(turn)), turn), id, t), id, t)
  {
    StabilizeKeeps(t, Some(c.sessions[id]));
    var d := Store(Closed(Called(c, Interrupt(turn)), turn), id, t);
    forall x ensures TurnHeld(d, x) { assert TurnHeld(c, x); }
    forall x | x in d.calls ensures ThreadReady(d, x) { assert x in c.calls ==> ThreadReady(c, x); }
    forall j | j in d.sessions ensures UpToDate(d.sessions[j], d.sleep) { assert j != id ==> UpToDate(c.sessions[j], c.sleep); }
  }

  lemma SendOk(c: Conn, id: SessionId, w: World)
    requires ConnOk(c) && id in c.sessions && (w.turn.Some? ==> w.turn.value !in c.usedTurns)
    ensures ConnOk(Send(c, id, w).0)
  {
    var s := c.sessions[id];
    if s.status != RecoveringTurn {
      var marked := s.(lastUserAt := Some(w.now));
      assert UpToDate(s, c.sleep) && TurnHasThread(s);
      StoreSame(c, id, marked);
      var d := Store(c, id, marked);
      var current := if marked.status != Archived then marked.(status := Active) else marked;
      if current.active.None? {
        BeginOk(d, id, current, false, w);
      } else if IsStale(s, w.now) {
        ClosedWorks(d, id, current.active.value, Dropped(current));
        BeginOk(AbortStale(d, id, current), id, Dropped(current), true, w);
      } else {
        SteerOk(d, id, current, w.text);
      }
    }
  }

  lemma SteerOk(c: Conn, id: SessionId, s: Session, text: string)
    requires ConnOk(c) && id in c.sessions && s.active == c.sessions[id].active && s.thread == c.sessions[id].thread
    requires s.active.Some? && s.thread.Some? && UpToDate(s, c.sleep)
    ensures ConnOk(SteerTurn(c, id, s, text))
  {
    var d := Called(c, Steer(s.thread.value, s.active.value, text));
    forall turn ensures TurnHeld(d, turn) { assert TurnHeld(c, turn); }
    forall x | x in d.calls ensures ThreadReady(d, x) { assert x in c.calls ==> ThreadReady(c, x); }
    StoreSame(d, id, s.(status := RunningTurn));
  }

  // ---------------------------------------------------------------- runs

  /** A step of the service on one connection, or of the server. */
  datatype Step =
    | SendTo(id: SessionId, w: World)
    | InterruptAt(id: SessionId)
    | ServerEnds(turn: TurnId)
    | Notify(n: N.Notification, nw: N.World, target: Option<SessionId>)
    | StoreOp(op: Op)
    | SleepAt(now: int, hour: nat, lesson: Option<string>)

  /** The server gives new turn ids, and reports the end only of turns that it no longer holds. */
  ghost predicate Possible(c: Conn, step: Step) {
    match step
    case SendTo(id, w) => id in c.sessions && (w.turn.Some? ==> w.turn.value !in c.usedTurns)
    case InterruptAt(id) => id in c.sessions
    case ServerEnds(_) => true
    case Notify(n, nw, target) =>
      N.Addresses(c.sessions, n, nw, target) && (n.TurnEnd? && N.TurnOf(n).Some? ==> N.TurnOf(n).value !in c.open)
    case StoreOp(op) => !op.Save? && Allowed(c.sessions, op) && (op.Obtain? || op.Create? ==> op.newId !in c.told)
    case SleepAt(_, _, _) => true
  }

  ghost function Next(c: Conn, step: Step): Conn
    requires Possible(c, step)
  {
    match step
    case SendTo(id, w) => Send(c, id, w).0
    case InterruptAt(id) => Stopped(c, id)
    case ServerEnds(turn) => Closed(c, turn)
    case Notify(n, nw, target) => c.(sessions := N.Handled(c.sessions, n, nw, target))
    case StoreOp(op) => c.(sessions := Perform(c.sessions, op))
    case SleepAt(now, hour, lesson) =>
      c.(sessions := Marked(c.sessions, lesson), sleep := Slept(c.sleep, now, hour, lesson))
  }

  ghost predicate Runs(c: Conn, steps: seq<Step>)
    decreases |steps|
  {
    steps != [] ==> Possible(c, steps[0]) && Runs(Next(c, steps[0]), steps[1..])
  }

  ghost function Exec(c: Conn, steps: seq<Step>): Conn
    requires Runs(c, steps)
    decreases |steps|
  {
    if steps == [] then c else Exec(Next(c, steps[0]), steps[1..])
  }

  lemma StoppedOk(c: Conn, id: SessionId)
    requires ConnOk(c) && id in c.sessions
    ensures ConnOk(Stopped(c, id))
  {
    var s := c.sessions[id];
    if s.active.Some? {
      assert UpToDate(s, c.sleep);
      ClosedWorks(c, id, s.active.value, s.(active := None, pending := "", status := Interrupted));
    }
  }

  lemma NotifyOk(c: Conn, n: N.Notification, nw: N.World, target: Option<SessionId>)
    requires ConnOk(c) && Possible(c, Notify(n, nw, target))
    ensures ConnOk(Next(c, Notify(n, nw, target)))
  {
    var d := Next(c, Notify(n, nw, target));
    forall id | id in d.sessions ensures id in c.sessions && UpToDate(d.sessions[id], d.sleep) && TurnHasThread(d.sessions[id]) {
      assert id in c.sessions && UpToDate(c.sessions[id], c.sleep) && TurnHasThread(c.sessions[id]);
      N.HandledKeeps(c.sessions, n, nw, target, id);
    }
    forall turn ensures TurnHeld(d, turn) {
      assert TurnHeld(c, turn);
      if turn in c.open { N.HandledKeeps(c.sessions, n, nw, target, c.open[turn]); }
    }
    forall x | x in d.calls ensures ThreadReady(d, x) { assert ThreadReady(c, x); }
  }

  lemma ServerEndsOk(c: Conn, turn: TurnId)
    requires ConnOk(c) && Possible(c, ServerEnds(turn))
    ensures ConnOk(Next(c, ServerEnds(turn)))
  {
    var d := Next(c, ServerEnds(turn));
    forall other ensures TurnHeld(d, other) { assert TurnHeld(c, other); }
    forall x | x in d.calls ensures ThreadReady(d, x) { assert ThreadReady(c, x); }
  }

  lemma StoreOpOk(c: Conn, op: Op)
    requires ConnOk(c) && Possible(c, StoreOp(op))
    ensures ConnOk(Next(c, StoreOp(op)))
  {
    var d := Next(c, StoreOp(op));
    forall turn ensures TurnHeld(d, turn) { assert TurnHeld(c, turn); }
    forall x | x in d.calls ensures ThreadReady(d, x) { assert ThreadReady(c, x); }
    forall id | id in d.sessions ensures TurnHasThread(d.sessions[id]) && UpToDate(d.sessions[id], d.sleep) {
      if id in c.sessions { assert TurnHasThread(c.sessions[id]) && UpToDate(c.sessions[id], c.sleep); }
    }
  }

  lemma SleepOk(c: Conn, step: Step)
    requires ConnOk(c) && Possible(c, step) && step.SleepAt?
    ensures ConnOk(Next(c, step))
  {
    var d := Next(c, step);
    SleepKeepsCurrent(c.sessions, c.sleep, step.now, step.hour, step.lesson);
    forall turn ensures TurnHeld(d, turn) { assert TurnHeld(c, turn); }
    forall x | x in d.calls ensures ThreadReady(d, x) { assert ThreadReady(c, x); }
    forall id | id in d.sessions ensures TurnHasThread(d.sessions[id]) { assert TurnHasThread(c.sessions[id]); }
  }

  lemma StepOk(c: Conn, step: Step)
    requires ConnOk(c) && Possible(c, step)
    ensures ConnOk(Next(c, step))
  {
    match step {
      case SendTo(id, w) => SendOk(c, id, w);
      case InterruptAt(id) => StoppedOk(c, id);
      case Notify(n, nw, target) => NotifyOk(c, n, nw, target);
      case ServerEnds(turn) => ServerEndsOk(c, turn);
      case StoreOp(op) => StoreOpOk(c, op);
      case SleepAt(_, _, _) => SleepOk(c, step);
    }
  }

  lemma {:induction false} RunOk(c: Conn, steps: seq<Step>)
    requires ConnOk(c) && Runs(c, steps)
    ensures ConnOk(Exec(c, steps))
    decreases |steps|
  {
    if steps != [] {
      StepOk(c, steps[0]);
      RunOk(Next(c, steps[0]), steps[1..]);
    }
  }

  /** A new connection: no thread resumed, nothing open on the server, no call made yet. */
  ghost predicate Fresh(c: Conn) {
    c.resumed == {} && c.open == map[] && c.calls == [] && TurnsHaveThreads(c.sessions) && CleanMeansCurrent(c.sessions, c.sleep)
  }

  /** Over all runs of sends, interrupts, turn ends, notifications, store operations and sleeps on
      one connection, the server never holds two open turns of one session; every `turn/start`
      names a thread that this connection has started or resumed; and every attached session that
      need not be refreshed has seen the current generation. */
  lemma OneOpenTurnPerSession(c: Conn, steps: seq<Step>)
    requires Fresh(c) && Runs(c, steps)
    ensures var d := Exec(c, steps);
            (forall t, u | t in d.open && u in d.open && d.open[t] == d.open[u] :: t == u) &&
            (forall call | call in d.calls && call.StartTurn? :: call.thread in d.resumed) &&
            CleanMeansCurrent(d.sessions, d.sleep)
  {
    RunOk(c, steps);
    var d := Exec(c, steps);
    forall t, u | t in d.open && u in d.open && d.open[t] == d.open[u] ensures t == u {
      assert TurnHeld(d, t) && TurnHeld(d, u);
    }
    forall call | call in d.calls && call.StartTurn? ensures call.thread in d.resumed { assert ThreadReady(d, call); }
  }

  /** The store's invariant is needed: a turn without a thread that is not stale is forgotten, not
      interrupted, and the next one is opened beside it. */
  lemma ThreadlessTurnIsForgotten(c: Conn, id: SessionId, turn: TurnId, w: World)
    requires id in c.sessions && c.sessions[id].thread.None? && c.sessions[id].active == Some(turn)
    requires turn in c.open && c.open[turn] == id
    requires c.sessions[id].status == Active && !IsStale(c.sessions[id], w.now)
    requires w.firstThread.Some? && w.turn.Some? && w.turn.value != turn
    ensures var d := Send(c, id, w).0;
            turn in d.open && w.turn.value in d.open && d.open[turn] == id && d.open[w.turn.value] == id
  {
    var marked := c.sessions[id].(lastUserAt := Some(w.now));
    var d := Store(c, id, marked);
    var forgotten := Dropped(marked).(hasMessages := false);
    BeginOpens(Store(d, id, forgotten), id, forgotten, true, w);
  }

  lemma BeginOpens(c: Conn, id: SessionId, s: Session, recovered: bool, w: World)
    requires s.thread.None? && w.firstThread.Some? && w.turn.Some?
    ensures Begin(c, id, s, recovered, w).0.open == c.open[w.turn.value := id]
  {
    var (preface, told) := TurnInput(s, c.sleep);
    assert told.thread.None?;
  }

  // ---------------------------------------------------------------- output after an interrupt

  /** An interrupt calls the server once for the active turn, and leaves the session interrupted, with
      no turn and nothing waiting; nothing else changes. Without an active turn it does nothing. */
  lemma InterruptEndsTurn(c: Conn, id: SessionId)
    requires ConnOk(c) && id in c.sessions
    ensures var s, d := c.sessions[id], Stopped(c, id);
            if s.active.None? then d == c
            else d.calls == c.calls + [Interrupt(s.active.value)] && s.active.value !in d.open && d.sessions.Keys == c.sessions.Keys &&
                 d.sessions[id] == s.(active := None, pending := "", status := Interrupted) &&
                 forall j | j in c.sessions && j != id :: d.sessions[j] == c.sessions[j]
  {
    assert TurnHasThread(c.sessions[id]);
  }

  /** An interrupt also ends a turn, but its turn is not remembered: late output of that turn still
      reaches the session if and only if no turn was completed before. */
  lemma InterruptSilencesExactly(c: Conn, id: SessionId)
    requires ConnOk(c) && id in c.sessions && c.sessions[id].active.Some?
    ensures id in Stopped(c, id).sessions
    ensures N.CanBeDisturbed(Stopped(c, id).sessions, id) <==> c.sessions[id].completed.None?
  {
    var s, t := c.sessions[id], Stopped(c, id).sessions;
    assert TurnHasThread(s) && t[id] == s.(active := None, pending := "", status := Interrupted);
    if s.completed.None? {
      LateOutputDisturbs(t, id, s.active);
    } else {
      forall n, w, target ensures !N.Disturbs(t, id, n, w, target) {
        if N.Addresses(t, n, w, target) { N.QuietStaysQuiet(t, n, w, target, id); }
      }
    }
  }

  /** Output that names the thread, and the interrupted turn. */
  lemma LateOutputDisturbs(sessions: Sessions, id: SessionId, turn: Option<TurnId>)
    requires id in sessions && turn.Some?
    requires var s := sessions[id]; IsRecoverable(s) && s.active.None? && s.completed.None? && s.thread.Some?
    ensures N.Disturbs(sessions, id, N.Partial(sessions[id].thread, turn, None, "x"), N.NO_WORLD, Some(id))
  {
    var s, n := sessions[id], N.Partial(sessions[id].thread, turn, None, "x");
    assert N.HasThread(sessions, id, n.thread) && N.Welcomes(s, n.turn);
    assert N.Handled(sessions, n, N.NO_WORLD, Some(id))[id].pending == s.pending + "x";
  }

  // ---------------------------------------------------------------- what agents are told

  /** The generation that the session's agent was last told of. */
  function ToldGeneration(c: Conn, id: SessionId): nat {
    if id in c.told then c.told[id] else 0
  }

  predicate RecordTells(c: Conn, id: SessionId) {
    id in c.sessions ==> c.sessions[id].generation == ToldGeneration(c, id)
  }

  /** The records say what the agents were told. */
  ghost predicate Honest(c: Conn) {
    forall id :: RecordTells(c, id)
  }

  predicate Fails(outcome: Outcome) {
    outcome.NoThread? || outcome.TurnNotStarted?
  }

  ghost predicate NoSendFails(c: Conn, steps: seq<Step>)
    requires Runs(c, steps)
    decreases |steps|
  {
    steps != [] ==>
      (steps[0].SendTo? ==> !Fails(Send(c, steps[0].id, steps[0].w).1)) && NoSendFails(Next(c, steps[0]), steps[1..])
  }

  lemma SendHonest(c: Conn, id: SessionId, w: World)
    requires ConnOk(c) && Honest(c) && id in c.sessions && !Fails(Send(c, id, w).1)
    ensures Honest(Send(c, id, w).0)
  {
    var d := Send(c, id, w).0;
    assert TurnHasThread(c.sessions[id]);
    forall j ensures RecordTells(d, j) {
      assert RecordTells(c, j);
      if j == id { SendRecords(c, id, w); } else { SendOthers(c, id, w, j); }
    }
  }

  lemma LaunchedRecords(c: Conn, id: SessionId, s: Session, preface: Preface, recovered: bool, text: string, turn: TurnId)
    requires s.thread.Some?
    ensures RecordTells(Launched(c, id, s, preface, recovered, text, turn), id)
  {
  }

  lemma BeginRecords(c: Conn, id: SessionId, s: Session, recovered: bool, w: World)
    requires !Fails(Begin(c, id, s, recovered, w).1)
    ensures RecordTells(Begin(c, id, s, recovered, w).0, id)
  {
    var (preface, told) := TurnInput(s, c.sleep);
    var (d, ready) := ReadyThread(c, id, told, w);
    var blank := ready.(delivered := "", streamed := "", phase := NoPhase);
    LaunchedRecords(Store(d, id, blank), id, blank, preface, recovered, w.text, w.turn.value);
  }

  /** The record of the session sent to, after a send that did not fail. */
  lemma SendRecords(c: Conn, id: SessionId, w: World)
    requires id in c.sessions && TurnHasThread(c.sessions[id]) && RecordTells(c, id) && !Fails(Send(c, id, w).1)
    ensures RecordTells(Send(c, id, w).0, id)
  {
    var s := c.sessions[id];
    if s.status != RecoveringTurn {
      var marked := s.(lastUserAt := Some(w.now));
      var d := Store(c, id, marked);
      var current := if marked.status != Archived then marked.(status := Active) else marked;
      if current.active.None? {
        BeginRecords(d, id, current, false, w);
      } else if IsStale(s, w.now) {
        BeginRecords(AbortStale(d, id, current), id, Dropped(current), true, w);
      }
    }
  }

  /** Another session's record, and what its agent was told, are the same. */
  predicate OtherKept(c: Conn, d: Conn, j: SessionId) {
    (j in d.sessions <==> j in c.sessions) && (j in c.sessions ==> d.sessions[j] == c.sessions[j]) &&
    ToldGeneration(d, j) == ToldGeneration(c, j)
  }

  lemma AskThreadOthers(c: Conn, id: SessionId, s: Session, answer: Option<ThreadId>, j: SessionId)
    requires j != id
    ensures OtherKept(c, AskThread(c, id, s, answer).0, j)
  {
  }

  lemma ReadyThreadOthers(c: Conn, id: SessionId, s: Session, w: World, j: SessionId)
    requires j != id
    ensures OtherKept(c, ReadyThread(c, id, s, w).0, j)
  {
    if s.thread.None? {
      AskThreadOthers(c, id, s, w.firstThread, j);
      var (d, t) := AskThread(c, id, s, w.firstThread);
      AskThreadOthers(d, id, t, w.secondThread, j);
    } else if s.thread.value !in c.resumed && w.resume.None? {
      var t := s.(thread := None);
      var d := Store(c, id, t);
      assert OtherKept(c, d, j);
      AskThreadOthers(d, id, t, w.secondThread, j);
    }
  }

  lemma BeginOthers(c: Conn, id: SessionId, s: Session, recovered: bool, w: World, j: SessionId)
    requires j != id
    ensures OtherKept(c, Begin(c, id, s, recovered, w).0, j)
  {
    var (preface, told) := TurnInput(s, c.sleep);
    ReadyThreadOthers(c, id, told, w, j);
    var (d, ready) := ReadyThread(c, id, told, w);
    if ready.thread.Some? {
      var blank := ready.(delivered := "", streamed := "", phase := NoPhase);
      var e := Store(d, id, blank);
      assert OtherKept(c, e, j);
      if w.turn.Some? { assert OtherKept(e, Launched(e, id, blank, preface, recovered, w.text, w.turn.value), j); }
    }
  }

  lemma AbortOthers(c: Conn, id: SessionId, s: Session, w: World, j: SessionId)
    requires j != id && s.active.Some?
    ensures OtherKept(c, Begin(AbortStale(c, id, s), id, Dropped(s), true, w).0, j)
  {
    var d := AbortStale(c, id, s);
    assert OtherKept(c, d, j);
    BeginOthers(d, id, Dropped(s), true, w, j);
  }

  lemma SendOthers(c: Conn, id: SessionId, w: World, j: SessionId)
    requires id in c.sessions && j != id
    ensures OtherKept(c, Send(c, id, w).0, j)
  {
    var s := c.sessions[id];
    if s.status != RecoveringTurn {
      var marked := s.(lastUserAt := Some(w.now));
      var d := Store(c, id, marked);
      var current := if marked.status != Archived then marked.(status := Active) else marked;
      assert OtherKept(c, d, j);
      if current.active.None? {
        BeginOthers(d, id, current, false, w, j);
      } else if IsStale(s, w.now) {
        AbortOthers(d, id, current, w, j);
      } else if current.thread.None? {
        var forgotten := Dropped(current).(hasMessages := false);
        BeginOthers(Store(d, id, forgotten), id, forgotten, true, w, j);
      }
    }
  }

  lemma StepHonest(c: Conn, step: Step)
    requires ConnOk(c) && Honest(c) && Possible(c, step)
    requires step.SendTo? ==> !Fails(Send(c, step.id, step.w).1)
    ensures Honest(Next(c, step))
  {
    var d := Next(c, step);
    if step.SendTo? {
      SendHonest(c, step.id, step.w);
    } else {
      forall id ensures RecordTells(d, id) {
        assert RecordTells(c, id);
        if step.Notify? && id in c.sessions { N.HandledKeeps(c.sessions, step.n, step.nw, step.target, id); }
        if step.InterruptAt? && id in c.sessions { assert TurnHasThread(c.sessions[step.id]); }
      }
    }
  }

  lemma {:induction false} RunHonest(c: Conn, steps: seq<Step>)
    requires ConnOk(c) && Honest(c) && Runs(c, steps) && NoSendFails(c, steps)
    ensures ConnOk(Exec(c, steps)) && Honest(Exec(c, steps))
    decreases |steps|
  {
    if steps != [] {
      StepOk(c, steps[0]);
      StepHonest(c, steps[0]);
      RunHonest(Next(c, steps[0]), steps[1..]);
    }
  }

  /** After any run in which no send fails: a turn started on the existing thread of an attached
      session tells its agent every lesson since the generation it was last told of, or gives it
      the full refresh. */
  lemma NoLessonIsMissed(c: Conn, steps: seq<Step>, id: SessionId, w: World)
    requires Fresh(c) && Honest(c) && Runs(c, steps) && NoSendFails(c, steps)
    requires var d := Exec(c, steps);
             id in d.sessions && d.sessions[id].attached && d.sessions[id].thread.Some? &&
             ToldGeneration(d, id) < d.sleep.generation && Send(d, id, w).1.Started?
    ensures var d := Exec(c, steps);
            TellsMissed(Send(d, id, w).0, id, ToldGeneration(d, id), d.sleep)
  {
    RunHonest(c, steps);
    assert RecordTells(Exec(c, steps), id);
    SendTellsMissed(Exec(c, steps), id, w);
  }

  /** The last call is the start of a turn of this session with this preface. */
  ghost predicate StartedWith(d: Conn, id: SessionId, preface: Preface) {
    d.calls != [] &&
    var call := d.calls[|d.calls| - 1];
    call.StartTurn? && call.id == id && call.preface == preface
  }

  lemma BeginStartsWith(c: Conn, id: SessionId, s: Session, recovered: bool, w: World)
    requires Begin(c, id, s, recovered, w).1.Started?
    ensures StartedWith(Begin(c, id, s, recovered, w).0, id, TurnInput(s, c.sleep).0)
  {
    var (preface, told) := TurnInput(s, c.sleep);
    var (d, ready) := ReadyThread(c, id, told, w);
    var blank := ready.(delivered := "", streamed := "", phase := NoPhase);
    var e := Store(d, id, blank);
    assert StartedWith(Launched(e, id, blank, preface, recovered, w.text, w.turn.value), id, preface);
  }

  /** A turn that a send starts carries everything that the session's record has missed. */
  ghost predicate TellsMissed(d: Conn, id: SessionId, seen: nat, sleep: State) {
    StartedWith(d, id, FullRefresh) || StartedWith(d, id, Lessons(MissedLessons(sleep.lessons, seen, sleep.generation)))
  }

  lemma SendTellsMissed(c: Conn, id: SessionId, w: World)
    requires ConnOk(c) && id in c.sessions && c.sessions[id].attached && c.sessions[id].thread.Some?
    requires c.sessions[id].generation < c.sleep.generation && Send(c, id, w).1.Started?
    ensures TellsMissed(Send(c, id, w).0, id, c.sessions[id].generation, c.sleep)
  {
    var s := c.sessions[id];
    assert UpToDate(s, c.sleep) && TurnHasThread(s);
    var marked := s.(lastUserAt := Some(w.now));
    var d := Store(c, id, marked);
    var current := if marked.status != Archived then marked.(status := Active) else marked;
    if current.active.None? {
      MissedGenerationsAreTold(current, c.sleep);
      BeginStartsWith(d, id, current, false, w);
    } else {
      MissedGenerationsAreTold(Dropped(current), c.sleep);
      BeginStartsWith(AbortStale(d, id, current), id, Dropped(current), true, w);
    }
  }

  /** But if `turn/start` fails once, the refresh is lost: the record already says that the current
      generation was seen, so the next turn starts without it. */
  lemma FailedStartLosesRefresh(c: Conn, id: SessionId, w: World, again: World)
    requires ConnOk(c) && id in c.sessions
    requires var s := c.sessions[id];
             s.attached && s.status == Active && s.active.None? && s.thread.Some? && s.thread.value in c.resumed &&
             s.generation < c.sleep.generation
    requires w.turn.None? && again.turn.Some?
    ensures var (d, outcome) := Send(c, id, w);
            outcome.TurnNotStarted? && id in d.sessions &&
            Send(d, id, again).1.Started? &&
            var calls := Send(d, id, again).0.calls;
            calls != [] && calls[|calls| - 1] == StartTurn(c.sessions[id].thread.value, id, Nothing, false, again.text)
  {
    assert UpToDate(c.sessions[id], c.sleep);
  }
}
