/** `AppServerSession` as an object: the record is changed field by field and saved as it goes, and
    the server is called in between. */
module AppServer {
  import opened Options
  import opened SessionRecords
  import opened SessionStore
  import opened Sleep
  import opened TurnLifecycle

  class AppServerSession {
    const store: Store
    const sleeper: Sleeper
    var resumed: set<ThreadId>
    // The server's side.
    ghost var open: map<TurnId, SessionId>
    ghost var usedTurns: set<TurnId>
    ghost var calls: seq<Call>
    ghost var told: map<SessionId, nat>

    constructor (store: Store, sleeper: Sleeper)
      requires TurnsHaveThreads(store.sessions) && CleanMeansCurrent(store.sessions, sleeper.state)
      ensures this.store == store && this.sleeper == sleeper && Fresh(Connection())
    {
      this.store, this.sleeper := store, sleeper;
      resumed, open, usedTurns, calls, told := {}, map[], {}, [], map[];
    }

    ghost function Connection(): Conn
      reads this, store, sleeper
    {
      Conn(store.sessions, sleeper.state, resumed, open, usedTurns, calls, told)
    }

    method Save(id: SessionId, s: Session)
      modifies store
      ensures Connection() == TurnLifecycle.Store(old(Connection()), id, s)
    {
      store.sessions := Saved(store.sessions, id, s);
    }

    method Call(call: TurnLifecycle.Call)
      modifies this`calls
      ensures Connection() == Called(old(Connection()), call)
    {
      calls := calls + [call];
    }

    method InterruptTurn(turn: TurnId)
      modifies this`calls, this`open
      ensures Connection() == Closed(Called(old(Connection()), Interrupt(turn)), turn)
    {
      Call(Interrupt(turn));
      open := open - {turn};
    }

    /** One `thread/start`, with its answer. */
    method RequestThread(id: SessionId, s: Session, answer: Option<ThreadId>) returns (session: Session)
      modifies this`calls, this`resumed, store
      ensures (Connection(), session) == AskThread(old(Connection()), id, s, answer)
    {
      Call(StartThread);
      session := s.(thread := answer);
      Save(id, session);
      if answer.Some? {
        resumed := resumed + {answer.value};
      }
    }

    method PrepareThread(id: SessionId, s: Session, w: World) returns (session: Session)
      modifies this`calls, this`resumed, store
      ensures (Connection(), session) == ReadyThread(old(Connection()), id, s, w)
    {
      session := s;
      if session.thread.Some? {
        var thread := session.thread.value;
        if thread in resumed {
          return;
        }
        if w.resume.None? {
          session := session.(thread := None);
          Save(id, session);
        } else {
          Call(Resume(thread));
          thread := if w.resume.value.Some? then w.resume.value.value else thread;
          session := session.(thread := Some(thread));
          resumed := resumed + {thread};
        }
      } else {
        session := RequestThread(id, session, w.firstThread);
      }
      if session.thread.None? {
        session := RequestThread(id, session, w.secondThread);
      }
    }

    method BeginTurn(id: SessionId, s: Session, recovered: bool, w: World) returns (outcome: Outcome)
      modifies this, store
      ensures (Connection(), outcome) == Begin(old(Connection()), id, s, recovered, w)
    {
      var (preface, told') := TurnInput(s, sleeper.state);
      var session := PrepareThread(id, told', w);
      if session.thread.None? {
        return NoThread;
      }
      session := session.(delivered := "", streamed := "", phase := NoPhase);
      Save(id, session);
      if w.turn.None? {
        return TurnNotStarted;
      }
      var turn := w.turn.value;
      Call(StartTurn(session.thread.value, id, preface, recovered, w.text));
      open, usedTurns := open[turn := id], usedTurns + {turn};
      session := session.(active := Some(turn), pending := "", status := RunningTurn, dirty := false);
      session := session.(generation := sleeper.state.generation);
      Save(id, session);
      told := told[id := sleeper.state.generation];
      outcome := Started(recovered);
    }

    /** `_start_or_steer_turn` */
    method StartOrSteerTurn(id: SessionId, w: World) returns (outcome: Outcome)
      requires id in store.sessions
      modifies this, store
      ensures (Connection(), outcome) == Send(old(Connection()), id, w)
      ensures old(ConnOk(Connection())) && (w.turn.Some? ==> w.turn.value !in old(usedTurns)) ==> ConnOk(Connection())
    {
      ghost var before := Connection();
      if ConnOk(before) && (w.turn.Some? ==> w.turn.value !in usedTurns) { SendOk(before, id, w); }
      var session := store.sessions[id];
      if session.status == RecoveringTurn {
        return Refused;
      }
      var stale := IsStale(session, w.now);
      session := session.(lastUserAt := Some(w.now));
      Save(id, session);
      if session.status != Archived {
        session := session.(status := Active);
      }
      var recovered := false;
      if session.active.Some? {
        if stale {
          InterruptTurn(session.active.value);
          session := Dropped(session);
          Save(id, session);
          recovered := true;
        } else if session.thread.None? {
          session := Dropped(session).(hasMessages := false);
          Save(id, session);
          recovered := true;
        } else {
          Call(Steer(session.thread.value, session.active.value, w.text));
          session := session.(status := RunningTurn);
          Save(id, session);
          return Steered;
        }
      }
      outcome := BeginTurn(id, session, recovered, w);
    }

    /** `interrupt` and `interrupt_local`, once the session is found. */
    method InterruptSession(id: SessionId) returns (done: bool)
      requires id in store.sessions
      modifies this`calls, this`open, store
      ensures Connection() == Stopped(old(Connection()), id)
      ensures done == old(store.sessions[id].active.Some?)
      ensures old(ConnOk(Connection())) ==> ConnOk(Connection())
    {
      ghost var before := Connection();
      if ConnOk(before) { StoppedOk(before, id); }
      var session := store.sessions[id];
      if session.active.None? {
        return false;
      }
      InterruptTurn(session.active.value);
      session := session.(active := None, pending := "", status := Interrupted);
      Save(id, session);
      done := true;
    }
  }
}
